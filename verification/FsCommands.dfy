/** Making, removing and renaming: icreat of tools/libfs.c, and the rmdir and mv commands of tools/opfs.c. */
module FsCommands {
  import opened FsDisk
  import opened FsLinks
  import opened FsImage
  import opened FsDir
  import opened FsUnlink
  import opened FsTree
  import opened Options

  // ----- removing a directory

  /** Why rmdir refuses: no such name, "." or "..", not a directory, or not empty. */
  ghost predicate Refused(d: Disk, rp: nat, name: seq<Byte>)
    requires rp < |d.inodes| && DirOk(d, rp)
  {
    || NotNamed(Content(d, rp), name) || name == DOT || name == DOTDOT
    || exists e: nat :: FirstNamed(Content(d, rp), name, e) && !EmptyDirAt(d, Inum(Content(d, rp), e))
  }

  ghost predicate EmptyDirAt(d: Disk, x: nat) {
    Dir(d, x) && d.inodes[x].size <= MAXFILE * BSIZE && Bare(Content(d, x))
  }

  /** Directory `x` and its name, entry `e` of `rp`, are gone, and its blocks are free. */
  ghost predicate Removed(d: Disk, d': Disk, rp: nat, e: nat, x: nat) {
    && x < |d.inodes| == |d'.inodes| && rp < |d.inodes| && d'.inodes[x].typ == 0 && BlocksBack(d, d', x)
    && (forall y: nat | y < |d.inodes| && y != x :: d'.inodes[y].typ == d.inodes[y].typ)
    && d'.inodes[rp].nlink == d.inodes[rp].nlink - 1
    && forall j: nat, y: nat :: Cell(d', j, y) == if j == x || (j == rp && y == e) then NoEntry() else Cell(d, j, y)
  }

  lemma RemovalDone(d: Disk, d': Disk, rp: nat, name: seq<Byte>, e: nat, x: nat, d1: Disk)
    requires Tree(d, 0) && Rooted(d) && Dir(d, rp) && Finds(d, rp, name, e) && name != DOT && name != DOTDOT
    requires x == Target(d, rp, e) && Dir(d, x) && DirOk(d, x) && Bare(Content(d, x))
    requires UnlinkDone(d, d', rp, e, x, d1)
    ensures Tree(d', 0) && Rooted(d') && Removed(d, d', rp, e, x) && Frame(d, d', {rp, x})
  {
    hide Tree, Rooted, Cell, CName, DecodeInum, DecodeName, Content, DirOk, Bare, OnlyOwes, Orphans, EntryBytes, Frame,
         EntryWritten, NoEntry, BlocksBack, Unlinked, InodeFreed, CellWritten, Names, Target, Finds;
    EmptyIsRemovable(d, rp, name, e, x);
    UnlinkCells(d, d', rp, e, x, d1);
    FreedType(Unlinked(d1, rp, x, true), d', x);
    FrameLength(d, d', {rp, x});
    ParentCounted(d, x, rp);
    RemovalKeepsShape(d, d', rp, e, x);
  }

  lemma FrameLength(d: Disk, d': Disk, s: set<nat>)
    requires Frame(d, d', s)
    ensures |d'.inodes| == |d.inodes|
  {
  }

  lemma FreedType(d: Disk, d': Disk, x: nat)
    requires InodeFreed(d, d', x)
    ensures x < |d'.inodes| && d'.inodes[x].typ == 0
  {
  }

  lemma ParentCounted(d: Disk, x: nat, rp: nat)
    requires Tree(d, 0) && Rooted(d) && Orphans(d, x, rp) && Dir(d, rp)
    ensures rp < |d.inodes| && d.inodes[rp].nlink >= 1
  {
    hide Tree, Rooted, Orphans;
    RootFacts(d);
    ParentHasCount(d, x, rp);
  }

  /** Where the lookup of a name leads, in terms of entries. */
  lemma FoundMeans(d: Disk, rp: nat, name: seq<Byte>, e: nat)
    requires DirsOk(d) && Dir(d, rp) && DirOk(d, rp) && FirstNamed(Content(d, rp), name, e) && IsName(name)
    ensures Finds(d, rp, name, e) && Inum(Content(d, rp), e) == Target(d, rp, e)
    ensures forall x: nat | FirstNamed(Content(d, rp), name, x) :: x == e
    ensures !NotNamed(Content(d, rp), name)
  {
    hide Content, DirsOk, Cell, CName, DecodeInum, EntryBytes, Target, Label;
    FindsMeans(d, rp, name, e);
    FirstNamedUnique(Content(d, rp), name, e);
    FoundIsNamed(Content(d, rp), name, e);
  }

  /**
   The rmdir command on a name in `rp`: an empty directory goes away, and link counts and the shape of the
   tree stay right; anything else is refused.
   */
  method RmDir(img: Image, rp: nat, name: seq<Byte>) returns (r: int, ghost x: nat, ghost e: nat)
    requires Tree(img.Disk(), 0) && Rooted(img.Disk()) && rp < |img.inodes| && IsDir(img.inodes[rp]) && IsName(name)
    modifies img
    ensures Tree(img.Disk(), 0) && Rooted(img.Disk()) && DirOk(old(img.Disk()), rp)
    ensures r == if Refused(old(img.Disk()), rp, name) then -1 else 0
    ensures r != 0 ==> img.Disk() == old(img.Disk())
    ensures r == 0 ==>
      && FirstNamed(Content(old(img.Disk()), rp), name, e) && x == Inum(Content(old(img.Disk()), rp), e)
      && Removed(old(img.Disk()), img.Disk(), rp, e, x) && Frame(old(img.Disk()), img.Disk(), {rp, x})
  {
    hide Tree, Rooted, Sound, DirsOk, Content, CName, EntryBytes, NotNamed, DirOk, FirstNamed, UnlinkDone, Removed,
         Frame, Finds, Target, Bare, Owned;
    ghost var d := img.Disk();
    TreeIsSound(d, 0);
    TreeDir(d, 0, rp);
    DirSize(d, rp);
    x, e := 0, 0;
    var found, inum, off := DLookup(img, rp, name);
    if !found {
      return -1, x, e;
    }
    x, e := inum, off / ENTRY;
    FoundMeans(d, rp, name, e);
    if img.inodes[inum].typ != T_DIR {
      return -1, x, e;
    }
    DirSize(d, inum);
    var empty := EmptyDir(img, inum);
    if !empty {
      return -1, x, e;
    }
    ghost var ip, e1, d1;
    r, ip, e1, d1 := IUnlink(img, rp, name);
    if r == 0 {
      RemovalDone(d, img.Disk(), rp, name, e, x, d1);
    }
  }

  // ----- making a file or directory

  /** The first free inode. */
  ghost predicate FirstFree(inodes: seq<Dinode>, ip: nat) {
    0 < ip < |inodes| && inodes[ip].typ == 0 && forall x | 0 < x < ip :: inodes[x].typ != 0
  }

  /**
   Inode `ip` was made, and entry `at` of `rp` names it; or, if `rp` was full, nothing does. A new
   directory has its two entries either way.
   */
  ghost predicate Created(d: Disk, d': Disk, rp: nat, name: seq<Byte>, typ: Ushort, ip: nat, at: nat) {
    && ip < |d.inodes| == |d'.inodes| && rp < |d.inodes| && ip < USHORT && rp < USHORT && |name| <= DIRSIZ
    && d'.inodes[ip].typ == typ
    && (forall x: nat | x < |d.inodes| && x != ip :: d'.inodes[x].typ == d.inodes[x].typ)
    && d'.inodes[ip].nlink == One(!Full(d, rp)) && d'.inodes[rp].nlink == d.inodes[rp].nlink + One(typ == T_DIR)
    && d'.inodes[ip].size == (if typ == T_DIR then 2 * ENTRY else 0)
    && d'.inodes[rp].size == (if Full(d, rp) then d.inodes[rp].size else GrownTo(d.inodes[rp].size, at))
    && (forall j: nat, y: nat ::
          Cell(d', j, y) == if !Full(d, rp) && j == rp && y == at then Encode(ip, name)
                            else if typ == T_DIR && j == ip && y == 0 then Encode(ip, DOT)
                            else if typ == T_DIR && j == ip && y == 1 then Encode(rp, DOTDOT)
                            else Cell(d, j, y))
    && (!Full(d, rp) ==> Target(d, rp, at) == 0 && Finds(d', rp, name, at))
    && (Rooted(d') <==> typ != T_DIR || !Full(d, rp))
  }

  /** A fresh inode changes no entry. */
  lemma FreshCells(d: Disk, d1: Disk, ip: nat, typ: Ushort, rp: nat)
    requires Tree(d, 0) && FirstFree(d.inodes, ip) && d1 == d.(inodes := d.inodes[ip := FreshInode(typ)])
    requires OthersUntouched(d, d1, ip) && Dir(d, rp)
    ensures Frame(d, d1, {ip}) && ip != rp && d1.inodes[rp] == d.inodes[rp] && DirOk(d, rp)
    ensures Content(d1, rp) == Content(d, rp) && (Full(d1, rp) <==> Full(d, rp))
    ensures EntryCost(d1, rp) == EntryCost(d, rp)
    ensures forall j: nat, y: nat :: Cell(d1, j, y) == Cell(d, j, y)
    ensures forall j: nat, y: nat :: Target(d, j, y) != ip
  {
    hide Sound, EntryBytes, Cell, CName, DecodeInum;
    FrameOfOne(d, d1, ip);
    OtherCells(d, d1, ip);
    DirSize(d, rp);
    assert Untouched(d, d1, rp);
    UntouchedDirBytes(d, d1, rp);
    forall y: nat ensures Cell(d1, ip, y) == NoEntry() && Cell(d, ip, y) == NoEntry() {
      EmptyHasNoCells(d, ip, y);
      EmptyHasNoCells(d1, ip, y);
    }
    forall j: nat, y: nat ensures Target(d, j, y) != ip {
      CellOk(d, j, y);
    }
  }

  lemma EmptyHasNoCells(d: Disk, i: nat, y: nat)
    requires i < |d.inodes| && (d.inodes[i].size == 0 || !Dir(d, i))
    ensures Cell(d, i, y) == NoEntry()
  {
  }

  /** Nothing but free inodes changed, so the shape has not. */
  lemma SameCellsSameShape(d: Disk, d': Disk)
    requires Rooted(d) && (forall x: nat :: Dir(d', x) <==> Dir(d, x))
    requires forall j: nat, y: nat :: Cell(d', j, y) == Cell(d, j, y)
    ensures Rooted(d')
  {
    hide Rooted, Dotted, NamedOnce, Dir, Cell, DecodeInum, DecodeName;
    RootFacts(d);
    forall x: nat | Dir(d', x) ensures Dotted(d', x) {
      DirFacts(d, x);
      ParentIsDir(d, x);
      DottedKept(d, d', x);
    }
    KeptNames(d, d');
    RootedFrom(d');
  }

  /** The first step: a fresh inode, and its name if there is room. */
  ghost predicate Begun(d: Disk, d1: Disk, d2: Disk, rp: nat, name: seq<Byte>, typ: Ushort, ip: nat, at: nat,
                        mid: Disk) {
    && Tree(d, 0) && Rooted(d) && Dir(d, rp) && FirstFree(d.inodes, ip) && typ != 0 && IsName(name)
    && (forall y: nat :: Label(d, rp, y) != name)
    && d1 == d.(inodes := d.inodes[ip := FreshInode(typ)]) && OthersUntouched(d, d1, ip) && Tree(d1, 0)
    && if Full(d, rp) then d2 == d1 else Linked(d1, d2, rp, name, ip, at, mid)
  }

  /** Its effect, for any type. */
  lemma BegunEffect(d: Disk, d1: Disk, d2: Disk, rp: nat, name: seq<Byte>, typ: Ushort, ip: nat, at: nat, mid: Disk)
    requires Begun(d, d1, d2, rp, name, typ, ip, at, mid)
    ensures Frame(d, d2, {rp, ip}) && ip != rp && |d2.inodes| == |d.inodes| <= USHORT
    ensures name != DOT && name != DOTDOT
    ensures d2.inodes[ip].typ == typ && d2.inodes[ip].size == 0 && d2.inodes[ip].nlink == One(!Full(d, rp))
    ensures forall x: nat | x < |d.inodes| && x != ip ::
              d2.inodes[x].typ == d.inodes[x].typ && d2.inodes[x].nlink == d.inodes[x].nlink
    ensures d2.inodes[rp].size == if Full(d, rp) then d.inodes[rp].size else GrownTo(d.inodes[rp].size, at)
    ensures |name| <= DIRSIZ && forall j: nat, y: nat ::
              Cell(d2, j, y) == if !Full(d, rp) && j == rp && y == at then Encode(ip, name) else Cell(d, j, y)
    ensures !Full(d, rp) ==> Target(d, rp, at) == 0
    ensures forall j: nat, y: nat :: Target(d, j, y) != ip
  {
    hide Tree, Rooted, Sound, Frame, Linked, Full, Cell, Encode, DecodeInum, DecodeName, OthersUntouched, IsName,
         Content;
    TreeIsSound(d, 0);
    RootFacts(d);
    DirFacts(d, rp);
    DotsNamed(d, rp, name);
    FreshCells(d, d1, ip, typ, rp);
    NameLength(name);
    if Full(d, rp) {
      FrameWider(d, d1, {ip}, {rp, ip});
    } else {
      LinkedEffect(d1, d2, rp, name, ip, at, mid);
      LinkedWhere(d1, d2, rp, name, ip, at, mid);
      LinkedFile(d1, d2, rp, name, ip, at, mid);
      FrameTransitive(d, d1, d2, {ip}, {rp, ip});
      assert {ip} + {rp, ip} == {rp, ip};
    }
  }

  lemma NameLength(name: seq<Byte>)
    requires IsName(name)
    ensures |name| <= DIRSIZ && name != []
  {
  }

  lemma DotsNamed(d: Disk, rp: nat, name: seq<Byte>)
    requires Dotted(d, rp) && forall y: nat :: Label(d, rp, y) != name
    ensures name != DOT && name != DOTDOT
  {
    assert Label(d, rp, 0) != name && Label(d, rp, 1) != name;
  }

  /** A linked file keeps its size. */
  lemma LinkedFile(d: Disk, d': Disk, dp: nat, name: seq<Byte>, ip: nat, e: nat, mid: Disk)
    requires Linked(d, d', dp, name, ip, e, mid) && ip != dp
    ensures ip < |d'.inodes| == |d.inodes| && d'.inodes[ip].size == d.inodes[ip].size
  {
    hide Sound, Vacant, Encode, Content;
    assert Untouched(d, mid, ip);
  }

  lemma CreatedFile(d: Disk, d1: Disk, d2: Disk, rp: nat, name: seq<Byte>, typ: Ushort, ip: nat, at: nat, mid: Disk)
    requires Begun(d, d1, d2, rp, name, typ, ip, at, mid) && typ != T_DIR
    ensures Created(d, d2, rp, name, typ, ip, at) && Frame(d, d2, {rp, ip})
  {
    hide Tree, Rooted, Sound, Frame, Linked, Full, Cell, Encode, DecodeInum, DecodeName, OthersUntouched, IsName;
    BegunEffect(d, d1, d2, rp, name, typ, ip, at, mid);
    FreshCells(d, d1, ip, typ, rp);
    SameCellsSameShape(d, d1);
    if !Full(d, rp) {
      LinkKeepsShape(d1, d2, rp, name, ip, at, mid);
      NewIsFirst(d, d2, rp, name, ip, at);
    }
  }

  /** The new entry is the first by its name. */
  lemma NewIsFirst(d: Disk, d': Disk, rp: nat, name: seq<Byte>, ip: nat, at: nat)
    requires IsName(name) && ip < USHORT && Cell(d', rp, at) == Encode(ip, name)
    requires forall y: nat :: Label(d, rp, y) != name
    requires forall y: nat | y != at :: Cell(d', rp, y) == Cell(d, rp, y)
    ensures Finds(d', rp, name, at)
  {
    hide Cell, Encode, DecodeInum, DecodeName, IsName;
    EncodeName(ip, name);
    forall y: nat | y < at ensures Label(d', rp, y) != name {
      assert Label(d, rp, y) != name;
    }
  }

  /** A directory without entries has no name in use and is not full. */
  lemma EmptyHasRoom(d: Disk, i: nat, name: seq<Byte>)
    requires i < |d.inodes| && d.inodes[i].size == 0
    ensures !Taken(Content(d, i), name) && !Full(d, i) && EntryCost(d, i) == 1
  {
    hide EntryBytes, CName;
  }

  /** "." goes to the first place. */
  lemma FirstEntry(d: Disk, d': Disk, ip: nat, e: nat, mid: Disk)
    requires Linked(d, d', ip, DOT, ip, e, mid) && d.inodes[ip].size == 0
    ensures e == 0 && d'.inodes[ip].size == ENTRY && Cell(d', ip, 0) == Encode(ip, DOT)
  {
    hide Linked, Frame, Encode, Cell;
    LinkedEffect(d, d', ip, DOT, ip, e, mid);
    LinkedWhere(d, d', ip, DOT, ip, e, mid);
  }

  lemma DotHasRoom(d: Disk, ip: nat)
    requires Dir(d, ip) && d.inodes[ip].size == ENTRY && 0 < ip < USHORT && Cell(d, ip, 0) == Encode(ip, DOT)
    ensures !Taken(Content(d, ip), DOTDOT) && !Full(d, ip) && EntryCost(d, ip) == 0
  {
    hide EntryBytes, CName, Encode, DecodeInum, Content, Cell, Label;
    EncodeDecode(ip, DOT);
    CellOfContent(d, ip, 0);
    DotLabel(d, ip);
  }

  lemma DotLabel(d: Disk, ip: nat)
    requires ip < USHORT && Cell(d, ip, 0) == Encode(ip, DOT)
    ensures Label(d, ip, 0) == DOT && Target(d, ip, 0) == ip
  {
    EncodeDecode(ip, DOT);
  }

  /** ".." goes to the second. */
  lemma SecondEntry(d: Disk, d': Disk, ip: nat, rp: nat, e: nat, mid: Disk)
    requires Linked(d, d', ip, DOTDOT, rp, e, mid) && 0 < ip < USHORT && d.inodes[ip].size == ENTRY
    requires Cell(d, ip, 0) == Encode(ip, DOT)
    ensures e == 1
  {
    hide Linked, Frame, Encode, Cell, Label, Target;
    LinkedEffect(d, d', ip, DOTDOT, rp, e, mid);
    LinkedWhere(d, d', ip, DOTDOT, rp, e, mid);
    DotLabel(d, ip);
  }

  lemma CreatedDir(d: Disk, d1: Disk, d2: Disk, rp: nat, name: seq<Byte>, ip: nat, at: nat, mid: Disk,
                   d3: Disk, mid0: Disk, d4: Disk, mid1: Disk)
    requires Begun(d, d1, d2, rp, name, T_DIR, ip, at, mid) && d.inodes[rp].nlink + 1 < USHORT
    requires Linked(d2, d3, ip, DOT, ip, 0, mid0) && Linked(d3, d4, ip, DOTDOT, rp, 1, mid1)
    ensures Created(d, d4, rp, name, T_DIR, ip, at)
  {
    hide Tree, Rooted, Sound, Frame, Linked, Full, Cell, Encode, DecodeInum, DecodeName, OthersUntouched, IsName;
    BegunEffect(d, d1, d2, rp, name, T_DIR, ip, at, mid);
    LinkedEffect(d2, d3, ip, DOT, ip, 0, mid0);
    LinkedEffect(d3, d4, ip, DOTDOT, rp, 1, mid1);
    assert MadeDir(d, d4, rp, at, name, ip, !Full(d, rp));
    MakingKeepsShapeIff(d, d4, rp, at, name, ip, !Full(d, rp));
    if !Full(d, rp) {
      NewIsFirst(d, d4, rp, name, ip, at);
    }
  }

  /** A new file, device or directory, by a name not in use; the result of adding the name is ignored. */
  method ICreat(img: Image, rp: nat, name: seq<Byte>, typ: Ushort)
    returns (r: Outcome<Option<nat>>, ghost ip: nat, ghost at: nat)
    requires Tree(img.Disk(), 0) && Rooted(img.Disk()) && rp < |img.inodes| && IsDir(img.inodes[rp])
    requires IsName(name) && typ != 0
    modifies img
    ensures DirOk(old(img.Disk()), rp)
    ensures r.Fatal? <==>
      && NotNamed(Content(old(img.Disk()), rp), name)
      && (NoFreeInode(old(img.inodes)) || FreeBlocks(old(img.Disk())) < CreateCost(old(img.Disk()), rp, typ))
    ensures Owned(img.Disk()) && Frame(old(img.Disk()), img.Disk(), {rp, ip})
    ensures ip != 0 ==> FirstFree(old(img.inodes), ip)
    ensures r.Ok? ==> Tree(img.Disk(), 0) && (r.value.None? <==> !NotNamed(Content(old(img.Disk()), rp), name))
    ensures r == Ok(None) ==> img.Disk() == old(img.Disk())
    ensures r.Ok? && r.value.Some? ==>
      && r.value.value == ip && 0 < ip && Created(old(img.Disk()), img.Disk(), rp, name, typ, ip, at)
      && FreeBlocks(img.Disk()) == FreeBlocks(old(img.Disk())) - CreateCost(old(img.Disk()), rp, typ)
  {
    hide Tree, Rooted, Sound, Owned, DirsOk, DirOk, Content, CName, EntryBytes, NotNamed, Linked, Frame, Full, Taken,
         Created, Encode, OthersUntouched, Cell, FirstNamed, Label, EntryCost, FreeIn;
    ghost var d := img.Disk();
    TreeIsSound(d, 0);
    TreeDir(d, 0, rp);
    DirSize(d, rp);
    CostIsNatural(d, rp);
    DirLinksBound(d, rp);
    NoChange(d);
    ip, at := 0, 0;
    FrameWider(d, d, {}, {rp, ip});
    var found, inum, off := DLookup(img, rp, name);
    if found {
      FoundMeans(d, rp, name, off / ENTRY);
      return Ok(None), ip, at;
    }
    var a := IAlloc(img, typ, 0);
    if a.Fatal? {
      return Fatal, ip, at;
    }
    ip := a.value;
    ghost var d1 := img.Disk();
    FreshCells(d, d1, ip, typ, rp);
    UnusedIsFree(d, rp, name);
    ghost var mid;
    var w;
    w, at, mid := DAddEnt(img, rp, name, a.value, 0);
    FrameTransitive(d, d1, img.Disk(), {ip}, {rp, ip});
    assert {ip} + {rp, ip} == {rp, ip};
    if w.Fatal? {
      return Fatal, ip, at;
    }
    ghost var d2 := img.Disk();
    BegunEffect(d, d1, d2, rp, name, typ, ip, at, mid);
    if img.inodes[a.value].typ == T_DIR {
      r := AddDots(img, rp, a.value, d, d1, name, at, mid);
    } else {
      TreeIsSound(d2, 0);
      CreatedFile(d, d1, d2, rp, name, typ, ip, at, mid);
      r := Ok(Some(a.value));
    }
  }

  /** Every inode but the first is in use. */
  ghost predicate NoFreeInode(inodes: seq<Dinode>) {
    forall x | 0 < x < |inodes| :: inodes[x].typ != 0
  }

  /** The data blocks that making a file or directory costs: for its name, if it gets one, and for "." and "..". */
  ghost function CreateCost(d: Disk, rp: nat, typ: Ushort): int
    requires rp < |d.inodes| && d.inodes[rp].size <= MAXFILE * BSIZE
  {
    (if Full(d, rp) then 0 else EntryCost(d, rp)) + One(typ == T_DIR)
  }

  lemma CostIsNatural(d: Disk, rp: nat)
    requires rp < |d.inodes| && d.inodes[rp].size <= MAXFILE * BSIZE
    ensures EntryCost(d, rp) >= 0
  {
    hide Content, EntryBytes;
    FootprintGrows(d.inodes[rp].size, d.inodes[rp].size + ENTRY);
  }

  lemma UnusedIsFree(d: Disk, rp: nat, name: seq<Byte>)
    requires Dir(d, rp) && d.inodes[rp].size <= MAXFILE * BSIZE && NotNamed(Content(d, rp), name) && IsName(name)
    requires Rooted(d)
    ensures !Taken(Content(d, rp), name) && name != DOT && forall y: nat :: Label(d, rp, y) != name
  {
    hide Rooted, Content, EntryBytes, CName, DecodeInum, Label;
    NotNamedMeans(d, rp, name);
    DirFacts(d, rp);
    DotsNamed(d, rp, name);
  }

  /** The two entries of a new directory. */
  method AddDots(img: Image, rp: nat, ip: nat, ghost d: Disk, ghost d1: Disk, name: seq<Byte>, ghost at: nat,
                 ghost mid: Disk) returns (r: Outcome<Option<nat>>)
    requires Begun(d, d1, img.Disk(), rp, name, T_DIR, ip, at, mid) && Tree(img.Disk(), 0)
    requires d.inodes[rp].nlink + 1 < USHORT
    modifies img
    ensures Owned(img.Disk()) && Frame(d, img.Disk(), {rp, ip})
    ensures r.Fatal? || r == Ok(Some(ip))
    ensures r.Ok? ==> Tree(img.Disk(), 0) && Created(d, img.Disk(), rp, name, T_DIR, ip, at)
    ensures Pays(old(img.Disk()), img.Disk(), 1, r.Ok?)
  {
    hide Tree, Rooted, Sound, Owned, DirsOk, DirOk, Content, CName, EntryBytes, Linked, Frame, Full, Taken, Begun,
         Created, Encode, OthersUntouched, Cell, EntryCost, FreeIn;
    ghost var d2 := img.Disk();
    BegunEffect(d, d1, d2, rp, name, T_DIR, ip, at, mid);
    BegunDir(d, d1, d2, rp, name, T_DIR, ip, at, mid);
    EmptyHasRoom(d2, ip, DOT);
    var w;
    ghost var e0, mid0, e1, mid1;
    w, e0, mid0 := DAddEnt(img, ip, DOT, ip, 0);
    FrameTransitive(d, d2, img.Disk(), {rp, ip}, {ip, ip});
    assert {rp, ip} + {ip, ip} == {rp, ip};
    if w.Fatal? {
      return Fatal;
    }
    ghost var d3 := img.Disk();
    FirstEntry(d2, d3, ip, e0, mid0);
    LinkedEffect(d2, d3, ip, DOT, ip, e0, mid0);
    DotHasRoom(d3, ip);
    w, e1, mid1 := DAddEnt(img, ip, DOTDOT, rp, 0);
    FrameTransitive(d, d3, img.Disk(), {rp, ip}, {ip, rp});
    assert {rp, ip} + {ip, rp} == {rp, ip};
    if w.Fatal? {
      return Fatal;
    }
    SecondEntry(d3, img.Disk(), ip, rp, e1, mid1);
    CreatedDir(d, d1, d2, rp, name, ip, at, mid, d3, mid0, img.Disk(), mid1);
    r := Ok(Some(ip));
  }

  lemma BegunDir(d: Disk, d1: Disk, d2: Disk, rp: nat, name: seq<Byte>, typ: Ushort, ip: nat, at: nat, mid: Disk)
    requires Begun(d, d1, d2, rp, name, typ, ip, at, mid)
    ensures Dir(d, rp) && 0 < ip < |d.inodes|
  {
  }

  // ----- making and removing a directory

  /** A directory just made counts as empty. */
  lemma NewDirIsBare(d: Disk, d': Disk, rp: nat, name: seq<Byte>, ip: nat, at: nat)
    requires Created(d, d', rp, name, T_DIR, ip, at) && Tree(d', 0) && 0 < ip != rp && 0 < rp
    ensures Dir(d', ip) && DirOk(d', ip) && Bare(Content(d', ip))
  {
    hide Tree, Rooted, Sound, Content, EntryBytes, CName, DecodeInum, Encode, Full, Cell, DirOk, Target, Label;
    TreeIsSound(d', 0);
    DirSize(d', ip);
    CellOfContent(d', ip, 0);
    CellOfContent(d', ip, 1);
    NewTargets(d, d', rp, name, ip, at);
    var c := Content(d', ip);
    assert OccupiedTo(c, 0) == 0 && OccupiedTo(c, 1) == 1 && OccupiedTo(c, 2) == 2;
  }

  lemma NewTargets(d: Disk, d': Disk, rp: nat, name: seq<Byte>, ip: nat, at: nat)
    requires Created(d, d', rp, name, T_DIR, ip, at) && 0 < ip != rp
    ensures Target(d', ip, 0) == ip && Target(d', ip, 1) == rp
    ensures !Full(d, rp) && IsName(name) ==> Target(d', rp, at) == ip
  {
    hide Rooted, Full, Cell, CName, DecodeInum, Encode, Finds, IsName;
    EncodeDecode(ip, DOT);
    EncodeDecode(rp, DOTDOT);
    assert Cell(d', ip, 0) == Encode(ip, DOT) && Cell(d', ip, 1) == Encode(rp, DOTDOT);
    if !Full(d, rp) && IsName(name) {
      EncodeName(ip, name);
    }
  }

  /** After removing what was made, every entry reads as before. */
  lemma Restored(d: Disk, d1: Disk, d2: Disk, rp: nat, name: seq<Byte>, ip: nat, at: nat)
    requires Tree(d, 0) && Dir(d, rp) && FirstFree(d.inodes, ip) && ip != rp && !Full(d, rp)
    requires Created(d, d1, rp, name, T_DIR, ip, at) && Removed(d1, d2, rp, at, ip)
    ensures SameTypes(d, d2) && d2.inodes[rp].nlink == d.inodes[rp].nlink
    ensures forall j: nat, y: nat :: Target(d2, j, y) == Target(d, j, y) && Label(d2, j, y) == Label(d, j, y)
  {
    hide Tree, Rooted, Full, Cell, CName, DecodeInum, Encode, Finds, NoEntry, BlocksBack, Sound, DirsOk;
    TreeIsSound(d, 0);
    NoEntryIsEmpty();
    CellOk(d, rp, at);
    forall y: nat ensures Target(d, ip, y) == 0 && Label(d, ip, y) == [] {
      NoCells(d, ip, y);
      NoLabel(d, ip, y);
    }
  }

  /** Making a directory where there is room, and removing it, leaves every directory as it was. */
  method MakeAndRemove(img: Image, rp: nat, name: seq<Byte>)
    returns (made: Outcome<Option<nat>>, removed: int, ghost ip: nat)
    requires Tree(img.Disk(), 0) && Rooted(img.Disk()) && rp < |img.inodes| && IsDir(img.inodes[rp]) && IsName(name)
    requires !Full(img.Disk(), rp) && DirOk(img.Disk(), rp) && NotNamed(Content(img.Disk(), rp), name)
    modifies img
    ensures made.Ok? <==>
      !NoFreeInode(old(img.inodes)) && EntryCost(old(img.Disk()), rp) + 1 <= FreeBlocks(old(img.Disk()))
    ensures made.Ok? ==>
      && removed == 0 && Tree(img.Disk(), 0) && Rooted(img.Disk()) && Frame(old(img.Disk()), img.Disk(), {rp, ip})
      && SameTypes(old(img.Disk()), img.Disk()) && img.inodes[rp].nlink == old(img.inodes)[rp].nlink
      && forall j: nat, y: nat ::
           && Target(img.Disk(), j, y) == Target(old(img.Disk()), j, y)
           && Label(img.Disk(), j, y) == Label(old(img.Disk()), j, y)
  {
    hide Tree, Rooted, Full, Frame, Created, Removed, DirOk, Content, NotNamed, Sound, DirsOk, Owned, Cell, CName,
         DecodeInum, Finds, FirstNamed, EntryBytes, Target, Label, Refused, SameTypes, EntryCost, FreeBlocks, EntryOk;
    ghost var d := img.Disk();
    DirBound(d, rp);
    removed := -1;
    ghost var at;
    made, ip, at := ICreat(img, rp, name, T_DIR);
    if made.Fatal? {
      return;
    }
    ghost var d1 := img.Disk();
    MadeFound(d, d1, rp, name, ip, at);
    NotRefused(d1, rp, name, ip, at);
    ghost var x, e;
    removed, x, e := RmDir(img, rp, name);
    Restored(d, d1, img.Disk(), rp, name, ip, at);
    FrameTransitive(d, d1, img.Disk(), {rp, ip}, {rp, ip});
    assert {rp, ip} + {rp, ip} == {rp, ip};
  }

  /** The new directory is found by its name, in a place that was empty. */
  lemma MadeFound(d: Disk, d1: Disk, rp: nat, name: seq<Byte>, ip: nat, at: nat)
    requires Tree(d, 0) && Rooted(d) && Dir(d, rp) && DirOk(d, rp) && NotNamed(Content(d, rp), name) && IsName(name)
    requires !Full(d, rp) && FirstFree(d.inodes, ip) && Created(d, d1, rp, name, T_DIR, ip, at) && Tree(d1, 0)
    ensures Rooted(d1) && ip != rp && Finds(d1, rp, name, at) && Target(d1, rp, at) == ip && at >= 2
    ensures Dir(d1, ip) && DirOk(d1, ip) && Bare(Content(d1, ip)) && Dir(d1, rp)
  {
    hide Tree, Full, Content, NotNamed, Sound, DirsOk, Cell, CName, DecodeInum, DirOk, EntryBytes, Bare, Target, Label,
         Rooted, Encode, IsName, Finds;
    RootFacts(d);
    SecondPlace(d, rp, at);
    NewDirIsBare(d, d1, rp, name, ip, at);
    NewTargets(d, d1, rp, name, ip, at);
  }

  lemma NotRefused(d: Disk, rp: nat, name: seq<Byte>, x: nat, e: nat)
    requires Tree(d, 0) && Rooted(d) && Dir(d, rp) && IsName(name) && Finds(d, rp, name, e) && Target(d, rp, e) == x
    requires Dir(d, x) && DirOk(d, x) && Bare(Content(d, x)) && e >= 2
    ensures DirOk(d, rp) && !Refused(d, rp, name)
    ensures FirstNamed(Content(d, rp), name, e) && Inum(Content(d, rp), e) == x
    ensures forall y: nat | FirstNamed(Content(d, rp), name, y) :: y == e
  {
    hide Tree, Rooted, Content, Sound, DirsOk, Cell, CName, DecodeInum, EntryBytes, Bare, Target, EntryOk;
    StillFound(d, rp, name, e);
    DirFacts(d, rp);
  }

  // ----- renaming

  /** Inode `x` is the same in both images but for its count. */
  ghost predicate SameFile(d: Disk, d': Disk, x: nat) {
    && x < |d.inodes| && x < |d'.inodes| && d'.inodes[x] == d.inodes[x].(nlink := d'.inodes[x].nlink)
    && (HasData(d.inodes[x]) ==>
          SameBytes(d, d', x) && forall k | 0 <= k <= MAXFILE :: Slot(d', x, k) == Slot(d, x, k))
  }

  lemma SameFileTransitive(d: Disk, e: Disk, f: Disk, x: nat)
    requires SameFile(d, e, x) && SameFile(e, f, x)
    ensures SameFile(d, f, x) && (f.inodes[x].nlink == d.inodes[x].nlink ==> Untouched(d, f, x))
  {
    hide ByteAt, Slot;
  }

  lemma SameFileNlink(d: Disk, y: nat, v: Ushort, x: nat)
    requires x < |d.inodes| && y < |d.inodes|
    ensures SameFile(d, WithNlink(d, y, v), x)
  {
    SlotsDependOnAddrs(d, WithNlink(d, y, v), x);
  }

  lemma SameFileWrite(d: Disk, d': Disk, dp: nat, e: nat, bytes: seq<Byte>, x: nat)
    requires EntryWritten(d, d', dp, e, bytes) && x < |d.inodes| && x != dp
    ensures SameFile(d, d', x)
  {
    hide Sound, Slot, ByteAt, Content;
    assert Untouched(d, d', x);
  }

  lemma SameFileLinked(d: Disk, d': Disk, dp: nat, name: seq<Byte>, ip: nat, e: nat, mid: Disk, x: nat)
    requires Linked(d, d', dp, name, ip, e, mid) && x < |d.inodes| && x != dp
    ensures SameFile(d, d', x)
  {
    hide SameFile, EntryWritten, Encode;
    SameFileWrite(d, mid, dp, e, Encode(ip, name), x);
    EntryWrittenIsSound(d, mid, dp, e, Encode(ip, name));
    SameFileNlink(mid, ip, Counted(d.inodes[ip].nlink, name), x);
    SameFileTransitive(d, mid, d', x);
  }

  lemma SameFileUnlinked(d: Disk, d': Disk, rp: nat, e: nat, ip: nat, d1: Disk)
    requires UnlinkDone(d, d', rp, e, ip, d1) && ip != rp && d'.inodes[ip].typ != 0
    ensures SameFile(d, d', ip)
  {
    hide SameFile, EntryWritten, NoEntry, Tree, Orphans, OnlyOwes, BlocksBack, WithNlink;
    var parent := Orphans(d, ip, rp);
    SameFileWrite(d, d1, rp, e, NoEntry(), ip);
    var m := if parent then Lowered(d1, rp) else d1;
    if parent {
      SameFileLowered(d1, rp, ip);
      SameFileTransitive(d, d1, m, ip);
    }
    SameFileLowered(m, ip, ip);
    SameFileTransitive(d, m, Lowered(m, ip), ip);
  }

  lemma SameFileLowered(d: Disk, y: nat, x: nat)
    requires x < |d.inodes| && y < |d.inodes|
    ensures SameFile(d, Lowered(d, y), x) && |Lowered(d, y).inodes| == |d.inodes|
  {
    SameFileNlink(d, y, (d.inodes[y].nlink + USHORT - 1) % USHORT, x);
  }

  /** A rename to a fresh name: what the command has checked before it starts. */
  ghost predicate Renameable(d: Disk, oldp: nat, sname: seq<Byte>, newp: nat, dname: seq<Byte>, sip: nat, es: nat) {
    && Tree(d, 0) && Rooted(d) && Dir(d, oldp) && Dir(d, newp) && sip < |d.inodes|
    && IsName(sname) && IsName(dname) && {sname, dname} !! {DOT, DOTDOT}
    && Finds(d, oldp, sname, es) && Target(d, oldp, es) == sip && (forall y: nat :: Label(d, newp, y) != dname)
    && (Dir(d, sip) ==> d.inodes[sip].nlink + 1 < USHORT && d.inodes[newp].nlink + 1 < USHORT)
  }

  /** The same without what follows from the shape of the tree. */
  ghost predicate Movable(d: Disk, oldp: nat, sname: seq<Byte>, newp: nat, dname: seq<Byte>, sip: nat, es: nat) {
    && Tree(d, 0) && Rooted(d) && Dir(d, oldp) && Dir(d, newp) && IsName(sname) && IsName(dname)
    && sname != DOT && sname != DOTDOT && (forall y: nat :: Label(d, newp, y) != dname)
    && Finds(d, oldp, sname, es) && Target(d, oldp, es) == sip
  }

  /** No directory is anywhere near the limit of its count, and "." and ".." are always in use. */
  lemma MovableIsRenameable(d: Disk, oldp: nat, sname: seq<Byte>, newp: nat, dname: seq<Byte>, sip: nat, es: nat)
    requires Movable(d, oldp, sname, newp, dname, sip, es)
    ensures Renameable(d, oldp, sname, newp, dname, sip, es)
  {
    hide Tree, Rooted, Finds, Label, Target, IsName, DirsOk, Sound;
    TreeIsSound(d, 0);
    CellOk(d, oldp, es);
    DirFacts(d, newp);
    DotsNamed(d, newp, dname);
    DirLinksBound(d, newp);
    if Dir(d, sip) {
      DirLinksBound(d, sip);
    }
  }

  lemma {:induction false} TwoWeights(c: seq<Byte>, x: nat, n: nat, e: nat, f: nat)
    requires ENTRY * n <= |c| && e != f
    ensures CountTo(c, x, n) >= One(e < n && LinksTo(EntryBytes(c, e), x)) + One(f < n && LinksTo(EntryBytes(c, f), x))
  {
    hide EntryBytes, LinksTo;
    if n > 0 {
      TwoWeights(c, x, n - 1, e, f);
    }
  }

  /** The file to be renamed is linked, twice if it is a directory that holds its own name. */
  lemma SourceHasCount(d: Disk, oldp: nat, sname: seq<Byte>, newp: nat, dname: seq<Byte>, sip: nat, es: nat)
    requires Renameable(d, oldp, sname, newp, dname, sip, es)
    ensures es >= 2 && 0 < sip && d.inodes[sip].typ != 0 && (Orphans(d, sip, oldp) <==> Dir(d, sip))
    ensures d.inodes[sip].nlink >= 1 + One(Dir(d, sip) && sip == oldp)
  {
    hide Rooted, Sound, DirsOk, Cell, Content, CName, DecodeInum, EntryBytes, IsName, Orphans, LinksUpTo;
    TreeIsSound(d, 0);
    RootFacts(d);
    DirFacts(d, oldp);
    CellOk(d, oldp, es);
    NameLength(sname);
    assert es >= 2;
    if Dir(d, sip) {
      DirFacts(d, sip);
      OnlyName(d, oldp, es, sip);
    }
    ParentMeans(d, sip, oldp);
    DirSize(d, oldp);
    CellOfContent(d, oldp, es);
    CellOfContent(d, oldp, 1);
    var c := Content(d, oldp);
    TwoWeights(c, sip, |c| / ENTRY, es, 1);
    LinksCoverDir(d, sip, oldp, |d.inodes|);
    assert LinkCountOk(d, sip, 0);
  }

  /** With the new name added, the old one is found where it was. */
  lemma RenameLinked(d: Disk, d1: Disk, oldp: nat, sname: seq<Byte>, newp: nat, dname: seq<Byte>, sip: nat, es: nat,
                     e: nat, mid: Disk)
    requires Renameable(d, oldp, sname, newp, dname, sip, es) && Linked(d, d1, newp, dname, sip, e, mid)
    ensures SameTypes(d, d1) && Finds(d1, oldp, sname, es) && Target(d1, oldp, es) == sip
    ensures e >= 2 && Target(d, newp, e) == 0 && (newp != oldp || e != es)
    ensures Dir(d, sip) ==> Dotted(d1, sip) && Parent(d1, sip) == oldp
  {
    hide Rooted, Tree, Cell, Content, CName, DecodeInum, DecodeName, IsName, Linked, Encode, Frame;
    SourceHasCount(d, oldp, sname, newp, dname, sip, es);
    RootFacts(d);
    LinkedEffect(d, d1, newp, dname, sip, e, mid);
    LinkedWhere(d, d1, newp, dname, sip, e, mid);
    LinkedRange(d, d1, newp, dname, sip, e, mid);
    SecondPlace(d, newp, e);
    EncodeName(sip, dname);
    assert newp == oldp ==> Label(d, newp, es) != dname;
    forall y: nat | y < es ensures Label(d1, oldp, y) != sname {
      assert Label(d, oldp, y) != sname;
    }
    if Dir(d, sip) {
      OnlyName(d, oldp, es, sip);
      DirFacts(d, sip);
      DottedKept(d, d1, sip);
      assert Cell(d1, sip, 1) == Cell(d, sip, 1);
    }
  }

  /** After linking and unlinking: the name has moved, and a directory's ".." not yet. */
  ghost predicate HalfMoved(d: Disk, d': Disk, oldp: nat, es: nat, newp: nat, e: nat, sip: nat, dname: seq<Byte>) {
    && SameTypes(d, d') && sip < USHORT && newp < USHORT && |dname| <= DIRSIZ && Grown(d, d', newp, e)
    && forall j: nat, y: nat ::
         Cell(d', j, y) == if j == oldp && y == es then NoEntry()
                           else if j == newp && y == e then Encode(sip, dname)
                           else Cell(d, j, y)
  }

  /** Of all directories, only `newp` has grown, to hold entry `e`. */
  ghost predicate Grown(d: Disk, d': Disk, newp: nat, e: nat) {
    && SameTypes(d, d')
    && forall j: nat | Dir(d, j) ::
         d'.inodes[j].size == if j == newp then GrownTo(d.inodes[j].size, e) else d.inodes[j].size
  }

  /** Unlinking the old name, after the new one was added, takes no inode away. */
  lemma SourceStays(d: Disk, d1: Disk, d2: Disk, oldp: nat, sname: seq<Byte>, newp: nat, dname: seq<Byte>, sip: nat,
                    es: nat, e: nat, mid: Disk, m: Disk)
    requires Renameable(d, oldp, sname, newp, dname, sip, es) && Linked(d, d1, newp, dname, sip, e, mid)
    requires d.inodes[sip].nlink + 1 < USHORT && Tree(d1, 0) && UnlinkDone(d1, d2, oldp, es, sip, m)
    ensures Orphans(d1, sip, oldp) <==> Dir(d, sip)
    ensures sip < |d1.inodes| == |d2.inodes| == |d.inodes| && d2.inodes[sip].typ != 0
    ensures d2.inodes[sip].nlink == d.inodes[sip].nlink - One(Dir(d, sip) && sip == oldp)
    ensures Tree(d2, if Dir(d, sip) then oldp else 0)
    ensures oldp < |d1.inodes| && (Dir(d, sip) ==> d1.inodes[oldp].nlink >= 1)
  {
    hide Rooted, Tree, Cell, Content, CName, DecodeInum, DecodeName, IsName, Linked, Encode, Frame, UnlinkDone,
         Orphans, Dotted, Parent, CellWritten, Finds, Target, Label, Sound, DirsOk, Owned, FirstNamed, DirOk;
    SourceHasCount(d, oldp, sname, newp, dname, sip, es);
    RenameLinked(d, d1, oldp, sname, newp, dname, sip, es, e, mid);
    LinkedEffect(d, d1, newp, dname, sip, e, mid);
    TreeIsSound(d1, 0);
    ParentMeans(d1, sip, oldp);
    assert d1.inodes[sip].nlink == d.inodes[sip].nlink + 1;
    LinksRemain(d1, d2, oldp, es, sip, m);
    if Dir(d, sip) {
      RootFacts(d);
      ParentHasCount(d1, sip, oldp);
    }
  }

  /** An inode with links to spare outlives an unlink. */
  lemma LinksRemain(d: Disk, d': Disk, rp: nat, e: nat, ip: nat, d1: Disk)
    requires UnlinkDone(d, d', rp, e, ip, d1) && d.inodes[ip].nlink >= 2 + One(Orphans(d, ip, rp) && ip == rp)
    ensures |d'.inodes| == |d.inodes| && d'.inodes[ip].typ == d.inodes[ip].typ != 0
    ensures d'.inodes[ip].nlink == d.inodes[ip].nlink - 1 - One(Orphans(d, ip, rp) && ip == rp)
    ensures Tree(d', if Orphans(d, ip, rp) then rp else 0)
  {
    hide Tree, EntryWritten, NoEntry, Orphans, OnlyOwes, BlocksBack, WithNlink;
    UnlinkedFields(d1, rp, ip, Orphans(d, ip, rp));
    ErasedTypes(d, d1, rp, e, ip);
  }

  lemma ErasedTypes(d: Disk, d1: Disk, rp: nat, e: nat, ip: nat)
    requires EntryWritten(d, d1, rp, e, NoEntry()) && ip < |d.inodes|
    ensures ip < |d1.inodes| == |d.inodes| && d1.inodes[ip].typ == d.inodes[ip].typ
  {
    hide Cell, EntryWritten, Frame;
    WriteEffect(d, d1, rp, e, NoEntry());
  }

  lemma RenameUnlinked(d: Disk, d1: Disk, d2: Disk, oldp: nat, sname: seq<Byte>, newp: nat, dname: seq<Byte>, sip: nat,
                       es: nat, e: nat, mid: Disk, m: Disk)
    requires Renameable(d, oldp, sname, newp, dname, sip, es) && Linked(d, d1, newp, dname, sip, e, mid)
    requires d.inodes[sip].nlink + 1 < USHORT && Tree(d1, 0) && UnlinkDone(d1, d2, oldp, es, sip, m)
    ensures Frame(d, d2, {oldp, newp, sip}) && HalfMoved(d, d2, oldp, es, newp, e, sip, dname)
  {
    hide Rooted, Tree, Cell, Content, CName, DecodeInum, DecodeName, IsName, Linked, Encode, Frame, UnlinkDone,
         NoEntry, Orphans, Finds, Label, Dotted, Parent, DirsOk, Sound, Owned;
    RenameLinked(d, d1, oldp, sname, newp, dname, sip, es, e, mid);
    LinkedEffect(d, d1, newp, dname, sip, e, mid);
    SourceStays(d, d1, d2, oldp, sname, newp, dname, sip, es, e, mid, m);
    UnlinkCells(d1, d2, oldp, es, sip, m);
    FrameTransitive(d, d1, d2, {newp, sip}, {oldp, sip});
    assert {newp, sip} + {oldp, sip} == {oldp, newp, sip};
    NameLength(dname);
    TreeIsSound(d1, 0);
    NameInRange(d1, oldp, sname, es);
    LinkedRange(d, d1, newp, dname, sip, e, mid);
    TreeIsSound(d, 0);
  }

  /** The new parent's count can still be raised. */
  lemma NewParentCount(d: Disk, d1: Disk, d2: Disk, oldp: nat, sname: seq<Byte>, newp: nat, dname: seq<Byte>, sip: nat,
                       es: nat, e: nat, mid: Disk, m: Disk)
    requires Renameable(d, oldp, sname, newp, dname, sip, es) && Linked(d, d1, newp, dname, sip, e, mid)
    requires d.inodes[sip].nlink + 1 < USHORT && Tree(d1, 0) && UnlinkDone(d1, d2, oldp, es, sip, m) && Dir(d, sip)
    ensures newp < |d2.inodes| && d2.inodes[newp].nlink + 1 < USHORT
  {
    hide Rooted, Tree, Cell, Content, CName, DecodeInum, DecodeName, IsName, Linked, Encode, Frame, UnlinkDone,
         NoEntry, Orphans, Finds, Label, CellWritten, Target;
    LinkedEffect(d, d1, newp, dname, sip, e, mid);
    SourceStays(d, d1, d2, oldp, sname, newp, dname, sip, es, e, mid, m);
    UnlinkCells(d1, d2, oldp, es, sip, m);
  }

  lemma LinkedRange(d: Disk, d': Disk, dp: nat, name: seq<Byte>, ip: nat, e: nat, mid: Disk)
    requires Linked(d, d', dp, name, ip, e, mid)
    ensures ip < USHORT && ip < |d.inodes| && |name| <= DIRSIZ
  {
  }

  lemma NameInRange(d: Disk, i: nat, name: seq<Byte>, e: nat)
    requires DirsOk(d) && Dir(d, i) && Finds(d, i, name, e) && IsName(name)
    ensures ENTRY * e + ENTRY <= d.inodes[i].size
  {
    hide Content, Cell, CName, DecodeInum, EntryBytes, Label;
    DirSize(d, i);
    CellOfContent(d, i, e);
  }

  /** A renamed file is itself unchanged, and the shape of the tree with it. */
  lemma RenamedFile(d: Disk, d1: Disk, d2: Disk, oldp: nat, sname: seq<Byte>, newp: nat, dname: seq<Byte>, sip: nat,
                    es: nat, e: nat, mid: Disk, m: Disk)
    requires Renameable(d, oldp, sname, newp, dname, sip, es) && Linked(d, d1, newp, dname, sip, e, mid)
    requires d.inodes[sip].nlink + 1 < USHORT && Tree(d1, 0) && UnlinkDone(d1, d2, oldp, es, sip, m) && !Dir(d, sip)
    ensures Rooted(d2) && Untouched(d, d2, sip)
  {
    hide Rooted, Tree, Cell, Content, CName, DecodeInum, DecodeName, IsName, Linked, Encode, Frame, UnlinkDone,
         NoEntry, Orphans, Finds, Label, Target, SameFile;
    RenameLinked(d, d1, oldp, sname, newp, dname, sip, es, e, mid);
    SourceStays(d, d1, d2, oldp, sname, newp, dname, sip, es, e, mid, m);
    LinkKeepsShape(d, d1, newp, dname, sip, e, mid);
    UnlinkKeepsShape(d1, d2, oldp, es, sip, m);
    SameFileLinked(d, d1, newp, dname, sip, e, mid, sip);
    SameFileUnlinked(d1, d2, oldp, es, sip, m);
    SameFileTransitive(d, d1, d2, sip);
  }

  /** Redirecting ".." completes the move of a directory. */
  lemma RenamedDir(d: Disk, d2: Disk, d3: Disk, oldp: nat, sname: seq<Byte>, newp: nat, dname: seq<Byte>, sip: nat,
                   es: nat, e: nat, up: nat, mid: Disk)
    requires Renameable(d, oldp, sname, newp, dname, sip, es) && Dir(d, sip) && e >= 2 && Target(d, newp, e) == 0
    requires HalfMoved(d, d2, oldp, es, newp, e, sip, dname) && DirsOk(d2) && ParentSet(d2, d3, newp, sip, up, mid)
    ensures Moved(d, d3, oldp, es, newp, e, sip, dname) && Rooted(d3) && Frame(d2, d3, {sip, newp})
    ensures Grown(d, d3, newp, e)
  {
    hide Rooted, Tree, Cell, Content, CName, DecodeInum, DecodeName, IsName, Encode, Frame, EntryWritten, NoEntry,
         Target, Label, DirOk, EntryBytes;
    SourceHasCount(d, oldp, sname, newp, dname, sip, es);
    HalfMovedUp(d, d2, oldp, es, newp, e, sip, dname);
    FirstNamedUnique(Content(d2, sip), DOTDOT, up);
    WriteCountEffect(d2, mid, sip, up, Encode(newp, DOTDOT), newp, (d2.inodes[newp].nlink + 1) % USHORT);
    MoveKeepsShape(d, d3, oldp, es, newp, e, sip, dname);
  }

  /** ".." of the directory being moved is still its second entry. */
  lemma HalfMovedUp(d: Disk, d2: Disk, oldp: nat, es: nat, newp: nat, e: nat, sip: nat, dname: seq<Byte>)
    requires Rooted(d) && Dir(d, sip) && es >= 2 && e >= 2 && HalfMoved(d, d2, oldp, es, newp, e, sip, dname)
    requires DirsOk(d2) && IsName(dname) && dname != DOT && dname != DOTDOT
    ensures UpKept(d, d2, sip)
  {
    hide Rooted, Cell, DecodeInum, DecodeName, IsName, Encode, NoEntry, DirsOk;
    EncodeName(sip, dname);
    NoEntryIsEmpty();
    UpStays(d, d2, sip);
  }

  ghost predicate UpKept(d: Disk, d': Disk, x: nat) {
    && Dir(d', x) && DirOk(d', x) && FirstNamed(Content(d', x), DOTDOT, 1) && Orphans(d', x, Parent(d, x))
    && 2 * ENTRY <= d'.inodes[x].size
  }

  lemma UpStays(d: Disk, d': Disk, x: nat)
    requires Rooted(d) && Dir(d, x) && SameTypes(d, d') && DirsOk(d')
    requires Cell(d', x, 0) == Cell(d, x, 0) && Cell(d', x, 1) == Cell(d, x, 1)
    requires forall e: nat | e >= 2 ::
      Cell(d', x, e) == Cell(d, x, e) || (Label(d', x, e) != DOT && Label(d', x, e) != DOTDOT)
    ensures UpKept(d, d', x)
  {
    hide Rooted, Cell, Content, CName, DecodeInum, DecodeName, DirsOk, DirOk, EntryBytes;
    DirFacts(d, x);
    DottedKept(d, d', x);
    ParentMeans(d', x, Parent(d, x));
  }

  // ----- renaming into a full directory

  /** The old name is gone and there is no new one; the inode is gone too if that was its last link. */
  ghost predicate Lost(d: Disk, d': Disk, oldp: nat, es: nat, sip: nat) {
    && sip < |d.inodes| == |d'.inodes|
    && (forall x: nat | x < |d.inodes| && x != sip :: d'.inodes[x].typ == d.inodes[x].typ)
    && (if d.inodes[sip].nlink == 1 + One(Dir(d, sip) && sip == oldp) then d'.inodes[sip].typ == 0
        else d'.inodes[sip].typ == d.inodes[sip].typ)
    && (forall j: nat, y: nat | j != sip || y != 1 || d'.inodes[sip].typ == 0 ::
          Cell(d', j, y) == if (j == sip && d'.inodes[sip].typ == 0) || (j == oldp && y == es) then NoEntry()
                            else Cell(d, j, y))
    && (d'.inodes[sip].typ != 0 ==> Label(d', sip, 1) == Label(d, sip, 1))
  }

  /** The counts are right afterwards, unless a directory that is gone linked to more than its parent. */
  ghost predicate LostCounts(d: Disk, d': Disk, oldp: nat, sip: nat)
    requires sip < |d.inodes| && sip < |d'.inodes|
  {
    Tree(d', 0) <==> (d'.inodes[sip].typ == 0 ==> OnlyOwes(d, sip, if Dir(d, sip) then oldp else 0))
  }

  lemma FreedCounts(d: Disk, d': Disk, rp: nat, e: nat, ip: nat, d1: Disk)
    requires UnlinkDone(d, d', rp, e, ip, d1) && ip < |d'.inodes| && d'.inodes[ip].typ == 0
    ensures Tree(d', 0) <==> OnlyOwes(d, ip, if Orphans(d, ip, rp) then rp else 0)
  {
    hide Tree, EntryWritten, NoEntry, Orphans, OnlyOwes, BlocksBack, WithNlink;
    UnlinkedFields(d1, rp, ip, Orphans(d, ip, rp));
    ErasedTypes(d, d1, rp, e, ip);
  }

  lemma LostParentCount(d: Disk, d': Disk, oldp: nat, es: nat, newp: nat, sip: nat, m: Disk)
    requires UnlinkDone(d, d', oldp, es, sip, m) && newp < |d.inodes| && d.inodes[newp].nlink + 1 < USHORT
    requires Tree(d, 0) && oldp != 0 && sip < |d'.inodes| == |d.inodes| && d'.inodes[sip].typ != 0
    ensures d'.inodes[newp].nlink + 1 < USHORT
  {
    hide UnlinkDone, Tree, CellWritten, Frame, Orphans;
    UnlinkCells(d, d', oldp, es, sip, m);
    UnlinkRange(d, d', oldp, es, sip, m);
    if Orphans(d, sip, oldp) {
      ParentHasCount(d, sip, oldp);
    }
    LinkedBelow(d, d', oldp, es, sip, m);
  }

  lemma LinkedBelow(d: Disk, d': Disk, rp: nat, e: nat, ip: nat, d1: Disk)
    requires UnlinkDone(d, d', rp, e, ip, d1) && ip < |d'.inodes| && d'.inodes[ip].typ != 0
    ensures d'.inodes[ip].nlink <= d.inodes[ip].nlink
  {
    hide UnlinkDone, Frame, CellWritten, Orphans;
    UnlinkCells(d, d', rp, e, ip, d1);
    UnlinkRange(d, d', rp, e, ip, d1);
  }

  lemma UnlinkedIsOwned(d: Disk, d': Disk, rp: nat, e: nat, ip: nat, d1: Disk)
    requires UnlinkDone(d, d', rp, e, ip, d1)
    ensures Owned(d') && ip < |d'.inodes| == |d.inodes|
    ensures d'.inodes[ip].typ != 0 ==>
      Tree(d', if Orphans(d, ip, rp) then rp else 0) && d'.inodes[ip].typ == d.inodes[ip].typ
    ensures d'.inodes[ip].typ == 0 <==> d.inodes[ip].nlink == 1 + One(Orphans(d, ip, rp) && ip == rp)
  {
    hide Tree, EntryWritten, NoEntry, Orphans, OnlyOwes, BlocksBack, WithNlink, Owned;
    UnlinkedFields(d1, rp, ip, Orphans(d, ip, rp));
    ErasedTypes(d, d1, rp, e, ip);
    if d'.inodes[ip].typ != 0 {
      TreeIsSound(d', if Orphans(d, ip, rp) then rp else 0);
    } else {
      SoundIsOwned(d');
    }
  }

  lemma LostName(d: Disk, d': Disk, oldp: nat, sname: seq<Byte>, newp: nat, dname: seq<Byte>, sip: nat, es: nat,
                 m: Disk)
    requires Renameable(d, oldp, sname, newp, dname, sip, es) && UnlinkDone(d, d', oldp, es, sip, m)
    ensures Lost(d, d', oldp, es, sip) && Frame(d, d', {oldp, sip}) && Owned(d')
    ensures Dir(d', sip) ==> UpKept(d, d', sip) && d'.inodes[newp].nlink + 1 < USHORT
    ensures if d'.inodes[sip].typ != 0 then Tree(d', if Dir(d, sip) then oldp else 0) else LostCounts(d, d', oldp, sip)
  {
    hide Rooted, Tree, Cell, Content, CName, DecodeInum, DecodeName, IsName, Frame, UnlinkDone, NoEntry, Orphans,
         Owned, Sound, DirsOk, UpKept, Finds, Target, OnlyOwes;
    SourceHasCount(d, oldp, sname, newp, dname, sip, es);
    UnlinkCells(d, d', oldp, es, sip, m);
    UnlinkedIsOwned(d, d', oldp, es, sip, m);
    if d'.inodes[sip].typ == 0 {
      FreedCounts(d, d', oldp, es, sip, m);
    }
    if Dir(d', sip) {
      TreeIsSound(d', oldp);
      LostParentCount(d, d', oldp, es, newp, sip, m);
      NoEntryIsEmpty();
      UpStays(d, d', sip);
    }
  }

  /** A directory that loses its name keeps living under its other entries' ".." links; its own ".." moves. */
  lemma LostDir(d: Disk, d2: Disk, d3: Disk, oldp: nat, es: nat, newp: nat, sip: nat, up: nat, mid: Disk)
    requires Lost(d, d2, oldp, es, sip) && UpKept(d, d2, sip) && ParentSet(d2, d3, newp, sip, up, mid) && Dir(d, sip)
    requires Rooted(d)
    ensures Lost(d, d3, oldp, es, sip) && Frame(d2, d3, {sip, newp})
  {
    hide Rooted, Cell, Content, CName, DecodeInum, DecodeName, Frame, NoEntry, EntryWritten, Orphans, EntryOk, Encode;
    DirFacts(d, sip);
    EncodeDecode(newp, DOTDOT);
    FirstNamedUnique(Content(d2, sip), DOTDOT, up);
    WriteCountEffect(d2, mid, sip, up, Encode(newp, DOTDOT), newp, (d2.inodes[newp].nlink + 1) % USHORT);
  }

  // ----- renaming a file whose count is full

  /** The new link takes the count of a file with 65535 links to 0: all but that is right. */
  lemma WrapLinked(d: Disk, d1: Disk, dp: nat, name: seq<Byte>, ip: nat, e: nat, mid: Disk)
    requires Tree(d, 0) && Linked(d, d1, dp, name, ip, e, mid) && IsName(name) && name != DOT
    requires d.inodes[ip].typ != 0
    ensures Sound(d1) && DirsOk(d1) && |d1.inodes| == |d.inodes|
    ensures forall x: nat | 0 < x < |d.inodes| :: Links(d1, x) == Links(d, x) + One(x == ip)
  {
    hide Tree, Sound, EntryWritten, Encode, DecodeInum, DecodeName, DirsOk, Vacant, Links, Content, OldWeight,
         WithNlink;
    var bytes, v := Encode(ip, name), Counted(d.inodes[ip].nlink, name);
    TreeIsSound(d, 0);
    EncodeName(ip, name);
    EntryWrittenIsSound(d, mid, dp, e, bytes);
    DirsOkAfterWrite(d, mid, dp, e, bytes);
    NlinkKeepsFiles(mid, ip, v);
    NlinkKeepsDirs(mid, ip, v);
    NlinkLength(mid, ip, v);
    VacantWeight(d, dp, e);
    forall x: nat | 0 < x < |d.inodes| ensures Links(d1, x) == Links(d, x) + One(x == ip) {
      CountsAfterWrite(d, mid, dp, e, bytes, x);
    }
  }

  /** Erasing a link. */
  lemma WrapErased(d: Disk, m: Disk, rp: nat, e: nat, ip: nat, v: Ushort)
    requires Sound(d) && DirsOk(d) && EntryWritten(d, m, rp, e, NoEntry()) && Erasable(d, rp, e, ip) && ip < |m.inodes|
    ensures var d2 := WithNlink(m, ip, v);
            && Sound(d2) && DirsOk(d2) && |d2.inodes| == |d.inodes|
            && (forall x: nat | 0 < x < |d.inodes| :: Links(d2, x) == Links(d, x) - One(x == ip))
            && forall x: nat | x < |d.inodes| ::
                 d2.inodes[x].typ == d.inodes[x].typ && d2.inodes[x].nlink == if x == ip then v else d.inodes[x].nlink
  {
    hide Sound, EntryWritten, NoEntry, DirsOk, Links, Content, WithNlink, EntryBytes;
    NoEntryIsEmpty();
    EntryWrittenIsSound(d, m, rp, e, NoEntry());
    DirsOkAfterWrite(d, m, rp, e, NoEntry());
    NlinkKeepsFiles(m, ip, v);
    NlinkKeepsDirs(m, ip, v);
    NlinkLength(m, ip, v);
    forall x: nat | x < |d.inodes|
      ensures 0 < x ==> Links(m, x) == Links(d, x) - One(x == ip)
      ensures WithNlink(m, ip, v).inodes[x].typ == d.inodes[x].typ
      ensures WithNlink(m, ip, v).inodes[x].nlink == if x == ip then v else d.inodes[x].nlink
    {
      CountsAfterWrite(d, m, rp, e, NoEntry(), x);
      CountsAfterNlink(m, ip, v, x);
    }
  }

  /** The steps `iunlink` takes for a file with its count at 0, which wraps back; its own contract speaks of a tree. */
  method UnlinkWrapped(img: Image, rp: nat, name: seq<Byte>, ip: nat, ghost e: nat) returns (ghost m: Disk)
    requires Sound(img.Disk()) && DirsOk(img.Disk()) && rp < |img.inodes| && IsDir(img.inodes[rp])
    requires IsName(name) && name != DOT && name != DOTDOT && Finds(img.Disk(), rp, name, e)
    requires Target(img.Disk(), rp, e) == ip && 0 < ip < |img.inodes|
    requires img.inodes[ip].typ != T_DIR && img.inodes[ip].nlink == 0
    modifies img
    ensures EntryWritten(old(img.Disk()), m, rp, e, NoEntry()) && Erasable(old(img.Disk()), rp, e, ip)
    ensures ip < |m.inodes| && img.Disk() == WithNlink(m, ip, USHORT - 1)
  {
    hide Sound, DirsOk, DirOk, Content, EntryBytes, CName, EntryWritten, NotNamed, EntryOk, NoEntry, Erasable, Finds,
         Target, FirstNamed, IsName;
    ghost var d := img.Disk();
    DirSize(d, rp);
    FoundThere(d, rp, name, e);
    var found, inum, off := DLookup(img, rp, name);
    FoundIsErasable(d, rp, name, e, ip);
    var w := WriteEntry(img, rp, off, NoEntry());
    m := img.Disk();
    EntryWrittenIsSound(d, m, rp, e, NoEntry());
    ErasedTypes(d, m, rp, e, ip);
    Lower(img, inum);
  }

  /** The name of a file with 65535 links has moved, and its count is what it was. */
  lemma WrapMoved(d: Disk, d1: Disk, d2: Disk, oldp: nat, sname: seq<Byte>, newp: nat, dname: seq<Byte>, sip: nat,
                  es: nat, e: nat, mid: Disk, m: Disk)
    requires Renameable(d, oldp, sname, newp, dname, sip, es) && Linked(d, d1, newp, dname, sip, e, mid)
    requires !Dir(d, sip) && d.inodes[sip].nlink == USHORT - 1
    requires EntryWritten(d1, m, oldp, es, NoEntry()) && Erasable(d1, oldp, es, sip) && sip < |m.inodes|
    requires d2 == WithNlink(m, sip, USHORT - 1)
    ensures Tree(d2, 0) && Frame(d, d2, {oldp, newp, sip}) && HalfMoved(d, d2, oldp, es, newp, e, sip, dname)
    ensures Rooted(d2) && Untouched(d, d2, sip)
  {
    hide Rooted, Tree, Cell, Content, CName, DecodeInum, DecodeName, IsName, Linked, Encode, Frame, NoEntry, Finds,
         Label, Target, SameFile, EntryWritten, Links, Sound, DirsOk, Erasable, WithNlink, HalfMoved, Untouched;
    SourceHasCount(d, oldp, sname, newp, dname, sip, es);
    WrapLinked(d, d1, newp, dname, sip, e, mid);
    WrapErased(d1, m, oldp, es, sip, USHORT - 1);
    LinkedEffect(d, d1, newp, dname, sip, e, mid);
    WrapTree(d, d1, d2, sip);
    WrapCells(d, d1, d2, oldp, sname, newp, dname, sip, es, e, mid, m);
    WrapShape(d, d1, d2, oldp, sname, newp, dname, sip, es, e, mid, m);
    SameFileLinked(d, d1, newp, dname, sip, e, mid, sip);
    SameFileWrite(d1, m, oldp, es, NoEntry(), sip);
    SameFileNlink(m, sip, USHORT - 1, sip);
    SameFileTransitive(d1, m, d2, sip);
    SameFileTransitive(d, d1, d2, sip);
  }

  /** After the new link the count can be 0 only for a file that had 65535. */
  lemma WrapStarts(d: Disk, d1: Disk, oldp: nat, sname: seq<Byte>, newp: nat, dname: seq<Byte>, sip: nat, es: nat,
                   e: nat, mid: Disk)
    requires Renameable(d, oldp, sname, newp, dname, sip, es) && Linked(d, d1, newp, dname, sip, e, mid)
    requires sip < |d1.inodes| && d1.inodes[sip].nlink == 0
    ensures d.inodes[sip].nlink == USHORT - 1 && !Dir(d, sip) && Sound(d1) && DirsOk(d1) && SameTypes(d, d1)
    ensures Finds(d1, oldp, sname, es) && Target(d1, oldp, es) == sip && 0 < sip
  {
    hide Rooted, Tree, Cell, Content, CName, DecodeInum, DecodeName, IsName, Linked, Encode, Frame, Finds, Label, Sound,
         DirsOk, Links;
    SourceHasCount(d, oldp, sname, newp, dname, sip, es);
    LinkedEffect(d, d1, newp, dname, sip, e, mid);
    WrapLinked(d, d1, newp, dname, sip, e, mid);
    RenameLinked(d, d1, oldp, sname, newp, dname, sip, es, e, mid);
  }

  lemma WrapsOrNot(d: Disk, d1: Disk, dp: nat, name: seq<Byte>, ip: nat, e: nat, mid: Disk)
    requires Linked(d, d1, dp, name, ip, e, mid) && name != DOT
    ensures ip < |d1.inodes| && (d1.inodes[ip].nlink != 0 <==> d.inodes[ip].nlink + 1 < USHORT)
  {
    hide Linked, CellWritten, Frame;
    LinkedEffect(d, d1, dp, name, ip, e, mid);
    LinkedRange(d, d1, dp, name, ip, e, mid);
    FrameLength(d, d1, {dp, ip});
  }

  lemma WrapTree(d: Disk, d1: Disk, d2: Disk, ip: nat)
    requires Tree(d, 0) && Sound(d2) && DirsOk(d2) && ip < |d.inodes| == |d1.inodes| == |d2.inodes|
    requires forall x: nat | 0 < x < |d.inodes| :: Links(d1, x) == Links(d, x) + One(x == ip)
    requires forall x: nat | 0 < x < |d.inodes| :: Links(d2, x) == Links(d1, x) - One(x == ip)
    requires forall x: nat | x < |d.inodes| ::
      d2.inodes[x].typ == d.inodes[x].typ && d2.inodes[x].nlink == d.inodes[x].nlink
    ensures Tree(d2, 0)
  {
    hide Sound, Links;
    forall x: nat | x < |d2.inodes| ensures LinkCountOk(d2, x, 0) {
      assert LinkCountOk(d, x, 0);
    }
  }

  lemma WrapCells(d: Disk, d1: Disk, d2: Disk, oldp: nat, sname: seq<Byte>, newp: nat, dname: seq<Byte>, sip: nat,
                  es: nat, e: nat, mid: Disk, m: Disk)
    requires Renameable(d, oldp, sname, newp, dname, sip, es) && Linked(d, d1, newp, dname, sip, e, mid)
    requires !Dir(d, sip) && EntryWritten(d1, m, oldp, es, NoEntry()) && sip < |m.inodes|
    requires d2 == WithNlink(m, sip, USHORT - 1) && DirsOk(d1)
    ensures Frame(d, d2, {oldp, newp, sip}) && HalfMoved(d, d2, oldp, es, newp, e, sip, dname)
  {
    hide Rooted, Tree, Cell, Content, CName, DecodeInum, DecodeName, IsName, Linked, Encode, Frame, NoEntry, Finds,
         Label, EntryWritten, WithNlink, Sound, DirsOk;
    RenameLinked(d, d1, oldp, sname, newp, dname, sip, es, e, mid);
    LinkedEffect(d, d1, newp, dname, sip, e, mid);
    WriteCountEffect(d1, m, oldp, es, NoEntry(), sip, USHORT - 1);
    FrameTransitive(d, d1, d2, {newp, sip}, {oldp, sip});
    assert {newp, sip} + {oldp, sip} == {oldp, newp, sip};
    NameLength(dname);
    NameInRange(d1, oldp, sname, es);
    LinkedRange(d, d1, newp, dname, sip, e, mid);
    TreeIsSound(d, 0);
  }

  lemma WrapShape(d: Disk, d1: Disk, d2: Disk, oldp: nat, sname: seq<Byte>, newp: nat, dname: seq<Byte>, sip: nat,
                  es: nat, e: nat, mid: Disk, m: Disk)
    requires Renameable(d, oldp, sname, newp, dname, sip, es) && Linked(d, d1, newp, dname, sip, e, mid)
    requires !Dir(d, sip) && EntryWritten(d1, m, oldp, es, NoEntry()) && sip < |m.inodes|
    requires d2 == WithNlink(m, sip, USHORT - 1)
    ensures Rooted(d2)
  {
    hide Rooted, Tree, Cell, Content, CName, DecodeInum, DecodeName, IsName, Linked, Encode, Frame, NoEntry, Finds,
         EntryWritten, WithNlink, Sound, DirsOk;
    RenameLinked(d, d1, oldp, sname, newp, dname, sip, es, e, mid);
    WriteCountEffect(d1, m, oldp, es, NoEntry(), sip, USHORT - 1);
    LinkKeepsShape(d, d1, newp, dname, sip, e, mid);
    NoEntryIsEmpty();
    RootFacts(d1);
    OtherEntryKeepsShape(d1, d2, oldp, es);
  }

  // ----- the command

  /** The first two steps of a rename: link under the new name, whose result is ignored, and unlink the old one. */
  method MoveName(img: Image, oldp: nat, sname: seq<Byte>, newp: nat, dname: seq<Byte>, sip: nat, ghost es: nat)
    returns (r: Outcome<bool>, ghost e: nat)
    requires Movable(img.Disk(), oldp, sname, newp, dname, sip, es)
    modifies img
    ensures Owned(img.Disk()) && Frame(old(img.Disk()), img.Disk(), {oldp, newp, sip})
    ensures Full(old(img.Disk()), newp) ==> r == Ok(false)
    ensures !Full(old(img.Disk()), newp) ==> r == Ok(true) || r.Fatal?
    ensures old(img.inodes[newp]).size <= MAXFILE * BSIZE
    ensures r.Fatal? <==>
      !Full(old(img.Disk()), newp) && FreeBlocks(old(img.Disk())) < EntryCost(old(img.Disk()), newp)
    ensures r == Ok(false) ==>
      && Lost(old(img.Disk()), img.Disk(), oldp, es, sip)
      && (Dir(img.Disk(), sip) ==> UpKept(old(img.Disk()), img.Disk(), sip) && img.inodes[newp].nlink + 1 < USHORT)
      && (if img.inodes[sip].typ != 0 then Tree(img.Disk(), if Dir(old(img.Disk()), sip) then oldp else 0)
          else LostCounts(old(img.Disk()), img.Disk(), oldp, sip))
    ensures r == Ok(true) ==>
      && HalfMoved(old(img.Disk()), img.Disk(), oldp, es, newp, e, sip, dname)
      && Tree(img.Disk(), if Dir(old(img.Disk()), sip) then oldp else 0)
      && e >= 2 && Target(old(img.Disk()), newp, e) == 0
      && (Dir(old(img.Disk()), sip) ==> img.inodes[newp].nlink + 1 < USHORT)
      && (!Dir(old(img.Disk()), sip) ==> Rooted(img.Disk()) && Untouched(old(img.Disk()), img.Disk(), sip))
  {
    hide Rooted, Tree, Sound, Owned, DirsOk, DirOk, Content, CName, EntryBytes, NotNamed, Linked, Frame, Full, Taken,
         OthersUntouched, Cell, FirstNamed, Label, Finds, HalfMoved, UnlinkDone, UpKept, Lost, Target, Untouched,
         Orphans, EntryCost, FreeBlocks, LostCounts, IsName;
    ghost var d := img.Disk();
    MovableIsRenameable(d, oldp, sname, newp, dname, sip, es);
    SourceHasCount(d, oldp, sname, newp, dname, sip, es);
    TreeIsSound(d, 0);
    DirSize(d, newp);
    UnusedName(d, newp, dname);
    ghost var mid;
    var w;
    w, e, mid := DAddEnt(img, newp, dname, sip, 0);
    ghost var d1 := img.Disk();
    FrameWider(d, d1, {newp, sip}, {oldp, newp, sip});
    if w.Fatal? {
      return Fatal, e;
    }
    if w == Ok(0) {
      RenameLinked(d, d1, oldp, sname, newp, dname, sip, es, e, mid);
      WrapsOrNot(d, d1, newp, dname, sip, e, mid);
    }
    ghost var ip, e1, m;
    if w == Ok(0) && img.inodes[sip].nlink == 0 {
      WrapStarts(d, d1, oldp, sname, newp, dname, sip, es, e, mid);
      m := UnlinkWrapped(img, oldp, sname, sip, es);
      WrapMoved(d, d1, img.Disk(), oldp, sname, newp, dname, sip, es, e, mid, m);
      TreeIsSound(img.Disk(), 0);
      return Ok(true), e;
    }
    StillFound(d1, oldp, sname, es);
    var u;
    u, ip, e1, m := IUnlink(img, oldp, sname);
    UnlinkedIsOwned(d1, img.Disk(), oldp, es, sip, m);
    if w == Ok(0) {
      RenameUnlinked(d, d1, img.Disk(), oldp, sname, newp, dname, sip, es, e, mid, m);
      SourceStays(d, d1, img.Disk(), oldp, sname, newp, dname, sip, es, e, mid, m);
      if Dir(d, sip) {
        NewParentCount(d, d1, img.Disk(), oldp, sname, newp, dname, sip, es, e, mid, m);
      } else {
        RenamedFile(d, d1, img.Disk(), oldp, sname, newp, dname, sip, es, e, mid, m);
      }
    } else {
      LostName(d, img.Disk(), oldp, sname, newp, dname, sip, es, m);
      FrameWider(d, img.Disk(), {oldp, sip}, {oldp, newp, sip});
    }
    r := Ok(w == Ok(0));
  }

  lemma UnusedName(d: Disk, i: nat, name: seq<Byte>)
    requires Dir(d, i) && d.inodes[i].size <= MAXFILE * BSIZE && IsName(name) && forall y: nat :: Label(d, i, y) != name
    ensures !Taken(Content(d, i), name)
  {
    hide Content, EntryBytes, CName, DecodeInum, Label;
    NotNamedMeans(d, i, name);
  }

  lemma StillFound(d: Disk, i: nat, name: seq<Byte>, e: nat)
    requires Tree(d, 0) && Dir(d, i) && IsName(name) && Finds(d, i, name, e)
    ensures DirOk(d, i) && !NotNamed(Content(d, i), name)
    ensures FirstNamed(Content(d, i), name, e) && Inum(Content(d, i), e) == Target(d, i, e)
    ensures forall x: nat | FirstNamed(Content(d, i), name, x) :: x == e
  {
    hide Tree, DirsOk, Sound, Content, EntryBytes, CName, DecodeInum, Label, DirOk, Finds;
    TreeIsSound(d, 0);
    FoundThere(d, i, name, e);
  }

  lemma FoundThere(d: Disk, i: nat, name: seq<Byte>, e: nat)
    requires DirsOk(d) && Dir(d, i) && IsName(name) && Finds(d, i, name, e)
    ensures DirOk(d, i) && !NotNamed(Content(d, i), name)
    ensures FirstNamed(Content(d, i), name, e) && Inum(Content(d, i), e) == Target(d, i, e)
    ensures forall x: nat | FirstNamed(Content(d, i), name, x) :: x == e
  {
    hide DirsOk, Content, EntryBytes, CName, DecodeInum, Label, DirOk, Finds;
    DirSize(d, i);
    FindsMeans(d, i, name, e);
    FoundMeans(d, i, name, e);
  }

  /**
   Renaming, as tools/opfs.c does it to a name that does not exist yet: link under the new name, unlink
   the old one, and, for a directory, move its "..". Between the last two steps the old parent's count
   is one short; at the end every count is right, unless the new directory was full: then the name is lost.
   */
  method Rename(img: Image, oldp: nat, sname: seq<Byte>, newp: nat, dname: seq<Byte>, sip: nat, ghost es: nat)
    returns (r: Outcome<int>, ghost e: nat)
    requires Movable(img.Disk(), oldp, sname, newp, dname, sip, es)
    modifies img
    ensures Owned(img.Disk()) && Frame(old(img.Disk()), img.Disk(), {oldp, newp, sip})
    ensures r.Fatal? || r == Ok(0)
    ensures old(img.inodes[newp]).size <= MAXFILE * BSIZE
    ensures r.Fatal? <==>
      !Full(old(img.Disk()), newp) && FreeBlocks(old(img.Disk())) < EntryCost(old(img.Disk()), newp)
    ensures Full(old(img.Disk()), newp) ==>
      && Lost(old(img.Disk()), img.Disk(), oldp, es, sip) && LostCounts(old(img.Disk()), img.Disk(), oldp, sip)
    ensures !Full(old(img.Disk()), newp) && r == Ok(0) ==>
      && Tree(img.Disk(), 0) && Rooted(img.Disk()) && Target(old(img.Disk()), newp, e) == 0
      && Moved(old(img.Disk()), img.Disk(), oldp, es, newp, e, sip, dname)
      && Grown(old(img.Disk()), img.Disk(), newp, e)
      && (!Dir(old(img.Disk()), sip) ==> Untouched(old(img.Disk()), img.Disk(), sip))
  {
    hide Rooted, Tree, Sound, Owned, DirsOk, DirOk, Content, CName, EntryBytes, Frame, Full, Cell, FirstNamed, Label,
         Finds, UpKept, Target, Untouched, Orphans, EntryWritten, Encode, NoEntry, EntryCost, FreeBlocks, OnlyOwes,
         IsName;
    ghost var d := img.Disk();
    MovableIsRenameable(d, oldp, sname, newp, dname, sip, es);
    SourceHasCount(d, oldp, sname, newp, dname, sip, es);
    RootFacts(d);
    var moved;
    moved, e := MoveName(img, oldp, sname, newp, dname, sip, es);
    if moved.Fatal? {
      return Fatal, e;
    }
    ghost var d2 := img.Disk();
    if img.inodes[sip].typ == T_DIR {
      BeforeParentLink(d, d2, oldp, sname, es, newp, e, sip, dname, moved.value);
      var m;
      ghost var up, mid;
      m, up, mid := DMkParLink(img, newp, sip);
      SoundIsOwned(img.Disk());
      if moved.value {
        RenamedDir(d, d2, img.Disk(), oldp, sname, newp, dname, sip, es, e, up, mid);
      } else {
        LostDir(d, d2, img.Disk(), oldp, es, newp, sip, up, mid);
      }
      FrameTransitive(d, d2, img.Disk(), {oldp, newp, sip}, {sip, newp});
      assert {oldp, newp, sip} + {sip, newp} == {oldp, newp, sip};
    }
    r := Ok(0);
  }

  /** What redirecting ".." needs. */
  lemma BeforeParentLink(d: Disk, d2: Disk, oldp: nat, sname: seq<Byte>, es: nat, newp: nat, e: nat, sip: nat,
                         dname: seq<Byte>, moved: bool)
    requires Renameable(d, oldp, sname, newp, dname, sip, es) && Dir(d2, sip) && 0 < oldp
    requires moved ==>
      HalfMoved(d, d2, oldp, es, newp, e, sip, dname) && Tree(d2, if Dir(d, sip) then oldp else 0) && e >= 2
    requires !moved ==> Lost(d, d2, oldp, es, sip) && Tree(d2, oldp) && UpKept(d, d2, sip)
    ensures Dir(d, sip) && Dir(d2, newp) && Sound(d2) && DirsOk(d2) && UpKept(d, d2, sip) && Orphans(d2, sip, oldp)
  {
    hide Rooted, Tree, Sound, Owned, DirsOk, DirOk, Content, CName, EntryBytes, Cell, FirstNamed, Label, Finds,
         Orphans, Encode, NoEntry, DecodeInum, IsName;
    SourceHasCount(d, oldp, sname, newp, dname, sip, es);
    OnlyName(d, oldp, es, sip);
    TreeIsSound(d2, oldp);
    if moved {
      HalfMovedUp(d, d2, oldp, es, newp, e, sip, dname);
    }
  }
}
