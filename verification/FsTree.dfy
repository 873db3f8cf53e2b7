/**
 The shape of the directory tree: every directory has "." and "..", and every directory but the root has
 one name, in its parent. Making, renaming and removing keep it; tools/opfs.c composes the last two from
 the operations of tools/libfs.c.
 */
module FsTree {
  import opened FsDisk
  import opened FsLinks
  import opened FsImage
  import opened FsDir
  import opened FsUnlink
  import opened Options

  const ROOT := 1

  // ----- the invariant

  ghost function Parent(d: Disk, x: nat): nat { Target(d, x, 1) }

  /** "." and ".." are the first two entries of directory `x`, and no others. */
  ghost predicate Dotted(d: Disk, x: nat) {
    && Target(d, x, 0) == x && Label(d, x, 0) == DOT && Label(d, x, 1) == DOTDOT && Dir(d, Parent(d, x))
    && forall e: nat | e >= 2 :: Label(d, x, e) != DOT && Label(d, x, e) != DOTDOT
  }

  /** An entry behind the first two that names `x`. */
  ghost predicate Names(d: Disk, i: nat, e: nat, x: nat) {
    e >= 2 && Target(d, i, e) == x
  }

  /** Entry `e` of its parent is the only one that names `x`. */
  ghost predicate NamedAt(d: Disk, x: nat, e: nat) {
    Names(d, Parent(d, x), e, x) && forall j: nat, y: nat | Names(d, j, y, x) :: j == Parent(d, x) && y == e
  }

  ghost predicate NamedOnce(d: Disk, x: nat) {
    exists e: nat :: NamedAt(d, x, e)
  }

  ghost predicate Rooted(d: Disk) {
    && Dir(d, ROOT) && Parent(d, ROOT) == ROOT && !Dir(d, 0) && (forall j: nat, y: nat :: !Names(d, j, y, ROOT))
    && (forall x: nat | Dir(d, x) :: Dotted(d, x))
    && (forall x: nat | Dir(d, x) && x != ROOT :: NamedOnce(d, x))
  }

  lemma RootFacts(d: Disk)
    requires Rooted(d)
    ensures Dir(d, ROOT) && Parent(d, ROOT) == ROOT && !Dir(d, 0)
  {
    hide Dotted, NamedOnce, Names;
  }

  lemma DirFacts(d: Disk, x: nat)
    requires Rooted(d) && Dir(d, x)
    ensures Dotted(d, x)
  {
    hide Dotted, NamedOnce, Names;
  }

  lemma NameFacts(d: Disk, x: nat)
    requires Rooted(d) && Dir(d, x) && x != ROOT
    ensures NamedOnce(d, x)
  {
    hide Dotted, NamedOnce, Names;
  }

  /** Whatever names a directory is its one name, and not the root's. */
  lemma OnlyName(d: Disk, j: nat, y: nat, x: nat)
    requires Rooted(d) && Dir(d, x) && Names(d, j, y, x)
    ensures x != ROOT && j == Parent(d, x) && NamedAt(d, x, y)
  {
    hide Dotted, Names, Parent;
    assert NamedOnce(d, x);
  }

  lemma RootedFrom(d: Disk)
    requires Dir(d, ROOT) && Parent(d, ROOT) == ROOT && !Dir(d, 0) && (forall j: nat, y: nat :: !Names(d, j, y, ROOT))
    requires forall x: nat | Dir(d, x) :: Dotted(d, x)
    requires forall x: nat | Dir(d, x) && x != ROOT :: NamedOnce(d, x)
    ensures Rooted(d)
  {
    hide Dotted, NamedOnce, Names;
  }

  /** A directory keeps its first two entries, and gets no others of their names. */
  lemma DottedKept(d: Disk, d': Disk, x: nat)
    requires Dotted(d, x) && Cell(d', x, 0) == Cell(d, x, 0) && Cell(d', x, 1) == Cell(d, x, 1)
    requires Dir(d', Parent(d, x))
    requires forall e: nat | e >= 2 ::
      Cell(d', x, e) == Cell(d, x, e) || (Label(d', x, e) != DOT && Label(d', x, e) != DOTDOT)
    ensures Dotted(d', x)
  {
    hide Cell, DecodeInum, DecodeName, Dir;
    forall e: nat | e >= 2 ensures Label(d', x, e) != DOT && Label(d', x, e) != DOTDOT {
      assert Label(d, x, e) != DOT && Label(d, x, e) != DOTDOT;
    }
  }

  lemma NameKept(d: Disk, d': Disk, x: nat)
    requires NamedOnce(d, x) && Parent(d', x) == Parent(d, x)
    requires forall j: nat, y: nat :: Names(d', j, y, x) <==> Names(d, j, y, x)
    ensures NamedOnce(d', x)
  {
    hide Names, Parent;
    var e: nat :| NamedAt(d, x, e);
    assert NamedAt(d', x, e);
  }

  // ----- entries and contents

  /** Entry `e` is the first in directory `i` with this name. */
  ghost predicate Finds(d: Disk, i: nat, name: seq<Byte>, e: nat) {
    Label(d, i, e) == name && forall x: nat | x < e :: Label(d, i, x) != name
  }

  lemma CellOfContent(d: Disk, i: nat, e: nat)
    requires Dir(d, i) && d.inodes[i].size <= MAXFILE * BSIZE
    ensures |Content(d, i)| == d.inodes[i].size
    ensures ENTRY * e + ENTRY <= |Content(d, i)| ==>
              Target(d, i, e) == Inum(Content(d, i), e) && Label(d, i, e) == Name(Content(d, i), e)
    ensures ENTRY * e + ENTRY > |Content(d, i)| ==> Target(d, i, e) == 0 && Label(d, i, e) == []
  {
    NoEntryIsEmpty();
  }

  lemma FindsMeans(d: Disk, i: nat, name: seq<Byte>, e: nat)
    requires Dir(d, i) && d.inodes[i].size <= MAXFILE * BSIZE && name != []
    ensures FirstNamed(Content(d, i), name, e) <==> Finds(d, i, name, e)
    ensures Finds(d, i, name, e) ==> Inum(Content(d, i), e) == Target(d, i, e)
  {
    hide Content, EntryBytes, Cell, CName, DecodeInum, Target, Label;
    CellOfContent(d, i, e);
    forall x: nat | x < e
      ensures ENTRY * x + ENTRY <= |Content(d, i)| ==> Label(d, i, x) == Name(Content(d, i), x)
    {
      CellOfContent(d, i, x);
    }
  }

  lemma NotNamedMeans(d: Disk, i: nat, name: seq<Byte>)
    requires Dir(d, i) && d.inodes[i].size <= MAXFILE * BSIZE && name != []
    ensures NotNamed(Content(d, i), name) <==> forall e: nat :: Label(d, i, e) != name
  {
    hide Content, EntryBytes, Cell, CName, DecodeInum, Target, Label;
    forall e: nat
      ensures ENTRY * e + ENTRY <= |Content(d, i)| ==> Label(d, i, e) == Name(Content(d, i), e)
      ensures ENTRY * e + ENTRY > |Content(d, i)| ==> Label(d, i, e) == []
    {
      CellOfContent(d, i, e);
    }
    if forall e: nat :: Label(d, i, e) != name {
      forall e: nat | ENTRY * e + ENTRY <= |Content(d, i)| ensures Name(Content(d, i), e) != name {
        assert Label(d, i, e) != name;
      }
    }
  }

  /** Entries name live inodes. */
  lemma CellOk(d: Disk, i: nat, e: nat)
    requires DirsOk(d)
    ensures Target(d, i, e) < |d.inodes|
    ensures if Target(d, i, e) == 0 then Label(d, i, e) == [] else d.inodes[Target(d, i, e)].typ != 0
  {
    hide Content, EntryBytes, CName, DecodeInum;
    NoEntryIsEmpty();
    if i < |d.inodes| && ENTRY * e + ENTRY <= |DirBytes(d, i)| {
      assert DirOk(d, i);
      assert EntryOk(d, i, EntryBytes(Content(d, i), e));
    }
  }

  lemma DirSize(d: Disk, i: nat)
    requires DirsOk(d) && Dir(d, i)
    ensures DirOk(d, i) && d.inodes[i].size <= MAXFILE * BSIZE
  {
  }

  /** In a tree of this shape, the parent found by name is the second entry's. */
  lemma ParentMeans(d: Disk, x: nat, rp: nat)
    requires DirsOk(d) && (Dir(d, x) ==> Dotted(d, x))
    ensures Orphans(d, x, rp) <==> Dir(d, x) && Parent(d, x) == rp
    ensures Dir(d, x) ==> DirOk(d, x) && FirstNamed(Content(d, x), DOT, 0) && Inum(Content(d, x), 0) == x
    ensures Dir(d, x) ==> FirstNamed(Content(d, x), DOTDOT, 1) && Inum(Content(d, x), 1) == Parent(d, x)
  {
    hide Content, EntryBytes, Cell, CName, DecodeInum, DirOk, Target, Label;
    if Dir(d, x) {
      DirSize(d, x);
      FindsMeans(d, x, DOT, 0);
      FindsMeans(d, x, DOTDOT, 1);
      FirstNamedUnique(Content(d, x), DOTDOT, 1);
    }
  }

  // ----- entries that name no directory

  /** Changing an entry that names no directory into another such entry. */
  lemma OtherEntryKeepsShape(d: Disk, d': Disk, dp: nat, e: nat)
    requires Rooted(d) && Dir(d, dp) && forall x: nat :: Dir(d', x) <==> Dir(d, x)
    requires forall j: nat, x: nat | j != dp || x != e :: Cell(d', j, x) == Cell(d, j, x)
    requires !Dir(d, Target(d, dp, e)) && !Dir(d, Target(d', dp, e))
    requires Label(d', dp, e) != DOT && Label(d', dp, e) != DOTDOT
    ensures Rooted(d')
  {
    hide Rooted, Dotted, NamedOnce, Names, Dir, Parent, Cell, DecodeInum, DecodeName;
    SecondPlace(d, dp, e);
    RootFacts(d);
    forall x: nat | Dir(d', x)
      ensures Dotted(d', x) && Parent(d', x) == Parent(d, x)
      ensures forall j: nat, y: nat :: Names(d', j, y, x) <==> Names(d, j, y, x)
    {
      DirFacts(d, x);
      ParentIsDir(d, x);
      DottedKept(d, d', x);
      SameTargets(d, d', dp, e, x);
    }
    KeptNames(d, d');
    RootedFrom(d');
  }

  lemma ParentIsDir(d: Disk, x: nat)
    requires Dotted(d, x)
    ensures Dir(d, Parent(d, x))
  {
  }

  /** Only the first two entries of a directory name directories without being their names. */
  lemma SecondPlace(d: Disk, dp: nat, e: nat)
    requires Rooted(d) && Dir(d, dp) && !Dir(d, Target(d, dp, e))
    ensures e >= 2
  {
    hide Rooted, Cell, DecodeInum, DecodeName, Dir;
    DirFacts(d, dp);
  }

  lemma SameTargets(d: Disk, d': Disk, dp: nat, e: nat, x: nat)
    requires e >= 2 && Target(d, dp, e) != x && Target(d', dp, e) != x
    requires forall j: nat, y: nat | j != dp || y != e :: Cell(d', j, y) == Cell(d, j, y)
    ensures Parent(d', x) == Parent(d, x) && forall j: nat, y: nat :: Names(d', j, y, x) <==> Names(d, j, y, x)
  {
    hide Cell, DecodeInum;
    assert Cell(d', x, 1) == Cell(d, x, 1);
  }

  lemma KeptNames(d: Disk, d': Disk)
    requires Rooted(d) && forall x: nat :: Dir(d', x) ==> Dir(d, x)
    requires forall x: nat | Dir(d', x) ::
      Parent(d', x) == Parent(d, x) && forall j: nat, y: nat :: Names(d', j, y, x) <==> Names(d, j, y, x)
    ensures forall x: nat | Dir(d', x) && x != ROOT :: NamedOnce(d', x)
    ensures Dir(d', ROOT) ==> forall j: nat, y: nat :: !Names(d', j, y, ROOT)
  {
    hide Rooted, Dotted, NamedOnce, Names, Dir, Parent;
    forall x: nat | Dir(d', x) && x != ROOT ensures NamedOnce(d', x) {
      NameFacts(d, x);
      NameKept(d, d', x);
    }
    if Dir(d', ROOT) {
      forall j: nat, y: nat ensures !Names(d', j, y, ROOT) {
        if Names(d, j, y, ROOT) {
          OnlyName(d, j, y, ROOT);
        }
      }
    }
  }

  /** A new name for a file or device keeps the shape. */
  lemma LinkKeepsShape(d: Disk, d': Disk, dp: nat, name: seq<Byte>, ip: nat, e: nat, mid: Disk)
    requires Tree(d, 0) && Rooted(d) && Linked(d, d', dp, name, ip, e, mid) && IsName(name) && !Dir(d, ip)
    requires name != DOT && name != DOTDOT
    ensures Rooted(d')
  {
    hide Rooted, Cell, Content, EntryWritten, CName, DecodeInum, EntryBytes, Encode, Tree, Sound, DirsOk;
    LinkedEffect(d, d', dp, name, ip, e, mid);
    LinkedWhere(d, d', dp, name, ip, e, mid);
    EncodeDecode(ip, name);
    TreeIsSound(d, 0);
    OtherEntryKeepsShape(d, d', dp, e);
  }

  /** The place of a new entry was empty before. */
  lemma LinkedWhere(d: Disk, d': Disk, dp: nat, name: seq<Byte>, ip: nat, e: nat, mid: Disk)
    requires Linked(d, d', dp, name, ip, e, mid)
    ensures Dir(d, dp) && DirOk(d, dp) && Target(d, dp, e) == 0
    ensures forall x: nat | x < e :: Target(d, dp, x) != 0 && Label(d, dp, x) != name
  {
    hide Sound, Content, EntryBytes, Cell, CName, DecodeInum, OthersUntouched, Encode, Target, Label;
    CellOfContent(d, dp, e);
    forall x: nat | x < e ensures Target(d, dp, x) != 0 && Label(d, dp, x) != name {
      CellOfContent(d, dp, x);
    }
  }

  /** Unlinking a file or device keeps the shape, whether or not that was its last name. */
  lemma UnlinkKeepsShape(d: Disk, d': Disk, rp: nat, e: nat, ip: nat, d1: Disk)
    requires Rooted(d) && UnlinkDone(d, d', rp, e, ip, d1) && Dir(d, rp) && Target(d, rp, e) == ip && !Dir(d, ip)
    ensures Rooted(d')
  {
    hide Rooted, CName, DecodeInum, UnlinkDone, NoEntry, EntryBytes, Content;
    UnlinkCells(d, d', rp, e, ip, d1);
    UnlinkRange(d, d', rp, e, ip, d1);
    NoEntryIsEmpty();
    forall j: nat, x: nat | j != rp || x != e ensures Cell(d', j, x) == Cell(d, j, x) {
    }
    RootFacts(d);
    OtherEntryKeepsShape(d, d', rp, e);
  }

  lemma UnlinkRange(d: Disk, d': Disk, rp: nat, e: nat, ip: nat, d1: Disk)
    requires UnlinkDone(d, d', rp, e, ip, d1)
    ensures ip < |d.inodes| && rp < |d.inodes| && d.inodes[ip].typ != 0
  {
  }

  // ----- removing an empty directory

  /** A directory that passes for empty has no entries behind its first two. */
  lemma BareCells(d: Disk, x: nat, y: nat)
    requires Rooted(d) && DirsOk(d) && Dir(d, x) && DirOk(d, x) && Bare(Content(d, x)) && y >= 2
    ensures Target(d, x, y) == 0
  {
    hide Rooted, Content, EntryBytes, Cell, CName, DecodeInum, Target, Label, DirsOk, EntryOk;
    var c := Content(d, x);
    RootFacts(d);
    DirFacts(d, x);
    CellOfContent(d, x, 0);
    CellOfContent(d, x, 1);
    CellOfContent(d, x, y);
    ThreeOccupied(c, |c| / ENTRY, 0, 1, y);
  }

  /** No directory lies under one without entries. */
  lemma NoChildren(d: Disk, x: nat, y: nat)
    requires Rooted(d) && Dir(d, y) && x != ROOT && forall f: nat | f >= 2 :: Target(d, x, f) == 0
    ensures Parent(d, y) != x
  {
    hide Rooted, Cell, DecodeInum;
    RootFacts(d);
    if y != ROOT {
      NameFacts(d, y);
      var f: nat :| NamedAt(d, y, f);
      assert Names(d, Parent(d, y), f, y);
    }
  }

  lemma {:induction false} LinksOfOne(d: Disk, x: nat, rp: nat, e: nat, n: nat)
    requires DirsOk(d) && n <= |d.inodes| && rp < |d.inodes| && 0 < x
    requires forall i: nat, y: nat | i != rp || y != e :: !LinksTo(Cell(d, i, y), x)
    requires LinksTo(Cell(d, rp, e), x)
    ensures LinksUpTo(d, x, n) == if rp < n then 1 else 0
  {
    hide EntryBytes, CName, DecodeInum, DirsOk, NoEntry, Content;
    if n > 0 {
      LinksOfOne(d, x, rp, e, n - 1);
      var c := DirBytes(d, n - 1);
      NoEntryIsEmpty();
      forall y: nat | y < |c| / ENTRY ensures Cell(d, n - 1, y) == EntryBytes(c, y) {
      }
      forall y: nat | y < |c| / ENTRY && (n - 1 != rp || y != e) ensures !LinksTo(EntryBytes(c, y), x) {
        assert !LinksTo(Cell(d, n - 1, y), x);
      }
      CountOfOne(c, x, if n - 1 == rp then e else |c| / ENTRY, |c| / ENTRY);
    }
  }

  /** The one entry that counts as a link to an empty directory is its name. */
  lemma OneLink(d: Disk, rp: nat, e: nat, x: nat, i: nat, y: nat)
    requires Rooted(d) && DirsOk(d) && Dir(d, x) && Names(d, rp, e, x)
    requires forall f: nat | f >= 2 :: Target(d, x, f) == 0
    requires LinksTo(Cell(d, i, y), x)
    ensures i == rp && y == e
  {
    hide Rooted, Cell, CName, DirsOk, NoEntry, DecodeInum;
    RootFacts(d);
    OnlyName(d, rp, e, x);
    if Dir(d, i) {
      NoChildren(d, x, i);
      DirFacts(d, i);
      assert y == 0 ==> Label(d, i, y) == DOT;
      if y >= 2 {
        OnlyName(d, i, y, x);
      }
    } else {
      NoCells(d, i, y);
    }
  }

  lemma NoCells(d: Disk, i: nat, y: nat)
    requires !Dir(d, i)
    ensures Target(d, i, y) == 0
  {
    NoEntryIsEmpty();
  }

  /** What the rmdir command finds out about a directory in `rp` before unlinking it. */
  lemma EmptyIsRemovable(d: Disk, rp: nat, name: seq<Byte>, e: nat, x: nat)
    requires Tree(d, 0) && Rooted(d) && Dir(d, rp) && Finds(d, rp, name, e) && name != DOT && name != DOTDOT
    requires x == Target(d, rp, e) && Dir(d, x) && DirOk(d, x) && Bare(Content(d, x))
    ensures Names(d, rp, e, x) && x != ROOT && x != rp && Orphans(d, x, rp) && OnlyOwes(d, x, rp)
    ensures d.inodes[x].nlink == 1 && forall f: nat | f >= 2 :: Target(d, x, f) == 0
  {
    hide Tree, Rooted, Cell, CName, DecodeInum, DecodeName, Content, DirOk, Bare, OnlyOwes, Orphans, EntryBytes,
         DirsOk;
    TreeIsSound(d, 0);
    RootFacts(d);
    DirFacts(d, rp);
    DirFacts(d, x);
    assert e >= 2;
    forall f: nat | f >= 2 ensures Target(d, x, f) == 0 {
      BareCells(d, x, f);
    }
    OnlyName(d, rp, e, x);
    ParentMeans(d, x, rp);
    EmptyDirOnlyOwes(d, x, rp, 0, 1);
    OneName(d, rp, e, x);
  }

  lemma OneName(d: Disk, rp: nat, e: nat, x: nat)
    requires Tree(d, 0) && Rooted(d) && Dir(d, rp) && Dir(d, x) && Names(d, rp, e, x) && Dotted(d, rp)
    requires forall f: nat | f >= 2 :: Target(d, x, f) == 0
    ensures d.inodes[x].nlink == 1
  {
    hide Rooted, Cell, CName, DecodeInum, Sound, DirsOk;
    TreeIsSound(d, 0);
    RootFacts(d);
    forall i: nat, y: nat | i != rp || y != e ensures !LinksTo(Cell(d, i, y), x) {
      if LinksTo(Cell(d, i, y), x) {
        OneLink(d, rp, e, x, i, y);
      }
    }
    assert Label(d, rp, e) != DOT;
    LinksOfOne(d, x, rp, e, |d.inodes|);
    assert LinkCountOk(d, x, 0);
  }

  /** An empty directory and its name gone, the shape stays. */
  lemma RemovalKeepsShape(d: Disk, d': Disk, rp: nat, e: nat, x: nat)
    requires Rooted(d) && Dir(d, rp) && Dir(d, x) && Names(d, rp, e, x) && x != rp
    requires forall f: nat | f >= 2 :: Target(d, x, f) == 0
    requires forall y: nat :: Dir(d', y) <==> Dir(d, y) && y != x
    requires forall j: nat, y: nat ::
      Cell(d', j, y) == if j == x || (j == rp && y == e) then NoEntry() else Cell(d, j, y)
    ensures Rooted(d')
  {
    hide Rooted, Dotted, NamedOnce, Names, Dir, Parent, Cell, DecodeInum, DecodeName, NoEntry;
    NoEntryIsEmpty();
    RootFacts(d);
    OnlyName(d, rp, e, x);
    SecondPlaceOfName(d, rp, e, x);
    forall y: nat | Dir(d', y)
      ensures Dotted(d', y) && Parent(d', y) == Parent(d, y)
      ensures forall j: nat, f: nat :: Names(d', j, f, y) <==> Names(d, j, f, y)
    {
      DirFacts(d, y);
      ParentIsDir(d, y);
      NoChildren(d, x, y);
      DottedKept(d, d', y);
      RemovedTargets(d, d', rp, e, x, y);
    }
    KeptNames(d, d');
    RootedFrom(d');
  }

  lemma SecondPlaceOfName(d: Disk, i: nat, e: nat, x: nat)
    requires Names(d, i, e, x)
    ensures e >= 2 && Target(d, i, e) == x
  {
  }

  lemma RemovedTargets(d: Disk, d': Disk, rp: nat, e: nat, x: nat, y: nat)
    requires y != 0 && y != x && e >= 2 && Target(d, rp, e) == x && forall f: nat | f >= 2 :: Target(d, x, f) == 0
    requires forall j: nat, f: nat ::
      Cell(d', j, f) == if j == x || (j == rp && f == e) then NoEntry() else Cell(d, j, f)
    ensures Parent(d', y) == Parent(d, y) && forall j: nat, f: nat :: Names(d', j, f, y) <==> Names(d, j, f, y)
  {
    hide Cell, DecodeInum, NoEntry;
    NoEntryIsEmpty();
    assert Cell(d', y, 1) == Cell(d, y, 1);
  }

  // ----- making a directory

  /** A new directory with its first two entries, and a name for it in `rp` unless there was no room. */
  ghost predicate MadeDir(d: Disk, d': Disk, rp: nat, at: nat, name: seq<Byte>, ip: nat, named: bool) {
    && ip < USHORT && rp < USHORT && |name| <= DIRSIZ
    && (forall y: nat :: Dir(d', y) <==> Dir(d, y) || y == ip)
    && forall j: nat, y: nat ::
         Cell(d', j, y) == if named && j == rp && y == at then Encode(ip, name)
                           else if j == ip && y == 0 then Encode(ip, DOT)
                           else if j == ip && y == 1 then Encode(rp, DOTDOT)
                           else Cell(d, j, y)
  }

  /** The shape stays exactly if the new directory got a name. */
  lemma MakingKeepsShapeIff(d: Disk, d': Disk, rp: nat, at: nat, name: seq<Byte>, ip: nat, named: bool)
    requires Rooted(d) && Dir(d, rp) && !Dir(d, ip) && 0 < ip && (forall j: nat, y: nat :: Target(d, j, y) != ip)
    requires MadeDir(d, d', rp, at, name, ip, named)
    requires named ==> IsName(name) && name != DOT && name != DOTDOT && Target(d, rp, at) == 0
    ensures Rooted(d') <==> named
  {
    hide Rooted, Dotted, NamedOnce, NamedAt, Names, Dir, Parent, MadeDir, Target;
    RootFacts(d);
    MadeFacts(d, d', rp, at, name, ip, named);
    if named {
      SecondPlace(d, rp, at);
      forall y: nat | Dir(d', y) ensures Dotted(d', y) {
        MadeIsDotted(d, d', rp, at, name, ip, y);
      }
      forall y: nat | Dir(d, y)
        ensures Parent(d', y) == Parent(d, y) && forall j: nat, f: nat :: Names(d', j, f, y) <==> Names(d, j, f, y)
      {
        MadeTargets(d, d', rp, at, name, ip, y);
      }
      forall y: nat | Dir(d', y) && y != ROOT ensures NamedOnce(d', y) {
        if y == ip {
          MadeIsNamed(d, d', rp, at, name, ip);
        } else {
          NameFacts(d, y);
          NameKept(d, d', y);
        }
      }
      forall j: nat, y: nat ensures !Names(d', j, y, ROOT) {
        if Names(d, j, y, ROOT) {
          OnlyName(d, j, y, ROOT);
        }
      }
      RootedFrom(d');
    } else if Rooted(d') {
      NameFacts(d', ip);
      MadeIsUnnamed(d, d', rp, at, name, ip);
    }
  }

  lemma MadeFacts(d: Disk, d': Disk, rp: nat, at: nat, name: seq<Byte>, ip: nat, named: bool)
    requires MadeDir(d, d', rp, at, name, ip, named)
    ensures forall y: nat :: Dir(d', y) <==> Dir(d, y) || y == ip
  {
  }

  lemma MadeIsUnnamed(d: Disk, d': Disk, rp: nat, at: nat, name: seq<Byte>, ip: nat)
    requires MadeDir(d, d', rp, at, name, ip, false) && forall j: nat, y: nat :: Target(d, j, y) != ip
    ensures !NamedOnce(d', ip)
  {
    hide Cell, DecodeInum, Encode, Dir;
    if f: nat :| NamedAt(d', ip, f) {
      var t, cell := Target(d, Parent(d', ip), f), Cell(d', Parent(d', ip), f);
    }
  }

  lemma MadeIsNamed(d: Disk, d': Disk, rp: nat, at: nat, name: seq<Byte>, ip: nat)
    requires MadeDir(d, d', rp, at, name, ip, true) && (forall j: nat, y: nat :: Target(d, j, y) != ip)
    requires at >= 2 && IsName(name)
    ensures NamedOnce(d', ip)
  {
    hide Cell, DecodeInum, DecodeName, Encode, IsName, Dir;
    EncodeName(ip, name);
    EncodeDecode(rp, DOTDOT);
    assert Cell(d', ip, 1) == Encode(rp, DOTDOT) && Cell(d', rp, at) == Encode(ip, name);
    forall j: nat, y: nat | Names(d', j, y, ip) ensures j == rp && y == at {
      assert Target(d, j, y) != ip;
    }
    assert NamedAt(d', ip, at);
  }

  lemma MadeTargets(d: Disk, d': Disk, rp: nat, at: nat, name: seq<Byte>, ip: nat, y: nat)
    requires MadeDir(d, d', rp, at, name, ip, true) && at >= 2 && IsName(name) && y != 0 && y != ip
    requires Target(d, rp, at) == 0
    ensures Parent(d', y) == Parent(d, y) && forall j: nat, f: nat :: Names(d', j, f, y) <==> Names(d, j, f, y)
  {
    hide Cell, DecodeInum, DecodeName, Encode, IsName, Dir;
    EncodeName(ip, name);
    assert Cell(d', y, 1) == Cell(d, y, 1);
  }

  lemma EncodeName(ip: nat, name: seq<Byte>)
    requires ip < USHORT && IsName(name)
    ensures DecodeInum(Encode(ip, name)) == ip && DecodeName(Encode(ip, name)) == name
  {
    EncodeDecode(ip, name);
  }

  lemma MadeIsDotted(d: Disk, d': Disk, rp: nat, at: nat, name: seq<Byte>, ip: nat, y: nat)
    requires Rooted(d) && Dir(d, rp) && !Dir(d, ip) && MadeDir(d, d', rp, at, name, ip, true) && Dir(d', y)
    requires IsName(name) && name != DOT && name != DOTDOT && at >= 2
    ensures Dotted(d', y)
  {
    hide Rooted, Cell, DecodeInum, DecodeName, Encode, IsName, Dir;
    EncodeDecode(ip, DOT);
    EncodeDecode(rp, DOTDOT);
    EncodeName(ip, name);
    if y == ip {
      assert Cell(d', ip, 0) == Encode(ip, DOT) && Cell(d', ip, 1) == Encode(rp, DOTDOT);
      forall f: nat | f >= 2 ensures Label(d', y, f) != DOT && Label(d', y, f) != DOTDOT {
        NoLabel(d, ip, f);
      }
    } else {
      DirFacts(d, y);
      DottedKept(d, d', y);
    }
  }

  lemma NoLabel(d: Disk, i: nat, y: nat)
    requires !Dir(d, i)
    ensures Label(d, i, y) == []
  {
    NoEntryIsEmpty();
  }

  // ----- renaming a directory

  /** The name moved from entry `es` of `oldp` to entry `e` of `newp`; a directory's ".." follows. */
  ghost predicate Moved(d: Disk, d': Disk, oldp: nat, es: nat, newp: nat, e: nat, sip: nat, dname: seq<Byte>) {
    && SameTypes(d, d') && sip < USHORT && newp < USHORT && |dname| <= DIRSIZ
    && forall j: nat, y: nat ::
         Cell(d', j, y) == if Dir(d, sip) && j == sip && y == 1 then Encode(newp, DOTDOT)
                           else if j == oldp && y == es then NoEntry()
                           else if j == newp && y == e then Encode(sip, dname)
                           else Cell(d, j, y)
  }

  lemma MoveKeepsShape(d: Disk, d': Disk, oldp: nat, es: nat, newp: nat, e: nat, sip: nat, dname: seq<Byte>)
    requires Rooted(d) && Dir(d, oldp) && Dir(d, newp) && Dir(d, sip) && Names(d, oldp, es, sip)
    requires Target(d, newp, e) == 0 && Moved(d, d', oldp, es, newp, e, sip, dname)
    requires IsName(dname) && dname != DOT && dname != DOTDOT
    ensures Rooted(d')
  {
    hide Rooted, Dotted, NamedOnce, NamedAt, Names, Dir, Parent, Moved, Target;
    RootFacts(d);
    SecondPlace(d, newp, e);
    OnlyName(d, oldp, es, sip);
    SecondPlaceOfName(d, oldp, es, sip);
    MovedFacts(d, d', oldp, es, newp, e, sip, dname);
    forall y: nat | Dir(d', y) ensures Dotted(d', y) {
      MovedIsDotted(d, d', oldp, es, newp, e, sip, dname, y);
    }
    forall y: nat | Dir(d, y) && y != sip
      ensures Parent(d', y) == Parent(d, y) && forall j: nat, f: nat :: Names(d', j, f, y) <==> Names(d, j, f, y)
    {
      MovedTargets(d, d', oldp, es, newp, e, sip, dname, y);
    }
    forall y: nat | Dir(d', y) && y != ROOT ensures NamedOnce(d', y) {
      if y == sip {
        MovedIsNamed(d, d', oldp, es, newp, e, sip, dname);
      } else {
        NameFacts(d, y);
        NameKept(d, d', y);
      }
    }
    forall j: nat, y: nat ensures !Names(d', j, y, ROOT) {
      if Names(d, j, y, ROOT) {
        OnlyName(d, j, y, ROOT);
      }
    }
    RootedFrom(d');
  }

  lemma MovedFacts(d: Disk, d': Disk, oldp: nat, es: nat, newp: nat, e: nat, sip: nat, dname: seq<Byte>)
    requires Moved(d, d', oldp, es, newp, e, sip, dname)
    ensures forall y: nat :: Dir(d', y) <==> Dir(d, y)
  {
  }

  lemma MovedTargets(d: Disk, d': Disk, oldp: nat, es: nat, newp: nat, e: nat, sip: nat, dname: seq<Byte>, y: nat)
    requires Moved(d, d', oldp, es, newp, e, sip, dname) && IsName(dname) && y != 0 && y != sip && e >= 2 && es >= 2
    requires Target(d, newp, e) == 0 && Target(d, oldp, es) == sip
    ensures Parent(d', y) == Parent(d, y) && forall j: nat, f: nat :: Names(d', j, f, y) <==> Names(d, j, f, y)
  {
    hide Cell, DecodeInum, DecodeName, Encode, IsName, Dir, NoEntry;
    EncodeName(sip, dname);
    NoEntryIsEmpty();
    assert Cell(d', y, 1) == Cell(d, y, 1);
  }

  lemma MovedIsNamed(d: Disk, d': Disk, oldp: nat, es: nat, newp: nat, e: nat, sip: nat, dname: seq<Byte>)
    requires Moved(d, d', oldp, es, newp, e, sip, dname) && IsName(dname) && 0 < sip && e >= 2 && Dir(d, sip)
    requires Target(d, newp, e) == 0 && NamedAt(d, sip, es) && oldp == Parent(d, sip)
    ensures NamedOnce(d', sip)
  {
    hide Cell, DecodeInum, DecodeName, Encode, IsName, Dir, NoEntry;
    EncodeName(sip, dname);
    EncodeDecode(newp, DOTDOT);
    NoEntryIsEmpty();
    assert Cell(d', sip, 1) == Encode(newp, DOTDOT) && Cell(d', newp, e) == Encode(sip, dname);
    forall j: nat, y: nat | Names(d', j, y, sip) ensures j == newp && y == e {
      assert Names(d, j, y, sip) ==> j == oldp && y == es;
    }
    assert NamedAt(d', sip, e);
  }

  lemma MovedIsDotted(d: Disk, d': Disk, oldp: nat, es: nat, newp: nat, e: nat, sip: nat, dname: seq<Byte>, y: nat)
    requires Rooted(d) && Dir(d, newp) && Dir(d, sip) && es >= 2 && e >= 2 && Dir(d', y) && Dir(d, y)
    requires Moved(d, d', oldp, es, newp, e, sip, dname) && IsName(dname) && dname != DOT && dname != DOTDOT
    ensures Dotted(d', y)
  {
    hide Rooted, Cell, DecodeInum, DecodeName, Encode, IsName, NoEntry;
    EncodeName(sip, dname);
    EncodeDecode(newp, DOTDOT);
    NoEntryIsEmpty();
    DirFacts(d, y);
    if y != sip {
      DottedKept(d, d', y);
    } else {
      assert Cell(d', y, 0) == Cell(d, y, 0) && Cell(d', y, 1) == Encode(newp, DOTDOT);
      forall f: nat | f >= 2 ensures Label(d', y, f) != DOT && Label(d', y, f) != DOTDOT {
        assert Label(d, y, f) != DOT && Label(d, y, f) != DOTDOT;
      }
    }
  }

  // ----- how many links a directory can have

  /** The directories other than the root whose parent is `x`, among the first `m` inodes. */
  ghost function Children(d: Disk, x: nat, m: nat): set<nat> {
    set i: nat | i < m && Dir(d, i) && Parent(d, i) == x && i != ROOT
  }

  /** What the first `n` entries of `x` name. */
  ghost function Named(d: Disk, x: nat, n: nat): (s: set<nat>)
    ensures |s| <= n
  {
    if n == 0 then {} else Named(d, x, n - 1) + {Target(d, x, n - 1)}
  }

  lemma {:induction false} NamedHas(d: Disk, x: nat, n: nat, e: nat)
    requires e < n
    ensures Target(d, x, e) in Named(d, x, n)
  {
    hide Target;
    if e < n - 1 {
      NamedHas(d, x, n - 1, e);
    }
  }

  /** Each child has its name in `x`. */
  lemma ChildrenAreNamed(d: Disk, x: nat, m: nat)
    requires Rooted(d) && DirsOk(d) && Dir(d, x)
    ensures |Children(d, x, m)| <= d.inodes[x].size / ENTRY
  {
    hide Rooted, Target, Label, DirsOk, Parent;
    var n := d.inodes[x].size / ENTRY;
    forall i | i in Children(d, x, m) ensures i in Named(d, x, n) {
      NameFacts(d, i);
      var e: nat :| NamedAt(d, i, e);
      NameInside(d, x, e, i);
      NamedHas(d, x, n, e);
    }
    var rest := Named(d, x, n) - Children(d, x, m);
    assert Named(d, x, n) == Children(d, x, m) + rest;
  }

  lemma NameInside(d: Disk, x: nat, e: nat, i: nat)
    requires Rooted(d) && DirsOk(d) && Dir(d, x) && Dir(d, i) && Names(d, x, e, i)
    ensures e < d.inodes[x].size / ENTRY && Target(d, x, e) == i
  {
    hide Rooted, Content, Cell, CName, DecodeInum, EntryBytes, Target, Label;
    RootFacts(d);
    DirSize(d, x);
    CellOfContent(d, x, e);
  }

  lemma {:induction false} CountOfTwo(c: seq<Byte>, y: nat, e: nat, f: nat, n: nat)
    requires ENTRY * n <= |c| && forall x: nat | x < n && x != e && x != f :: !LinksTo(EntryBytes(c, x), y)
    ensures CountTo(c, y, n) <= One(e < n && LinksTo(EntryBytes(c, e), y)) + One(f < n && LinksTo(EntryBytes(c, f), y))
  {
    hide EntryBytes, LinksTo;
    if n > 0 {
      CountOfTwo(c, y, e, f, n - 1);
    }
  }

  /** One directory links to `x` at most from its ".." and, if it is the parent, by the name. */
  lemma CountInDir(d: Disk, x: nat, i: nat)
    requires Rooted(d) && DirsOk(d) && Dir(d, x) && i < |d.inodes|
    ensures Count(DirBytes(d, i), x) <= One(Dir(d, i) && Parent(d, i) == x) + One(x != ROOT && i == Parent(d, x))
  {
    hide Rooted, Content, EntryBytes, CName, DecodeInum, DirsOk, DirBytes, Cell;
    var c := DirBytes(d, i);
    var n := |c| / ENTRY;
    if !Dir(d, i) {
      NoDirBytes(d, i);
    } else {
      RootFacts(d);
      DirFacts(d, i);
      var e: nat := 1;
      if x != ROOT {
        NameFacts(d, x);
        e :| NamedAt(d, x, e);
      }
      forall y: nat | y < n ensures LinksTo(EntryBytes(c, y), x) ==>
        (y == 1 && Parent(d, i) == x) || (y >= 2 && x != ROOT && i == Parent(d, x) && y == e)
      {
        if LinksTo(EntryBytes(c, y), x) {
          LinkWhere(d, x, i, y);
          if y >= 2 {
            OnlyName(d, i, y, x);
          }
        }
      }
      CountOfTwo(c, x, 1, if e == 1 then 2 else e, n);
    }
  }

  lemma NoDirBytes(d: Disk, i: nat)
    requires i < |d.inodes| && !Dir(d, i)
    ensures DirBytes(d, i) == [] && forall x: nat :: Count(DirBytes(d, i), x) == 0
  {
  }

  lemma LinkWhere(d: Disk, x: nat, i: nat, y: nat)
    requires Dir(d, i) && Dotted(d, i) && y < |DirBytes(d, i)| / ENTRY && LinksTo(EntryBytes(DirBytes(d, i), y), x)
    ensures Target(d, i, y) == x && y >= 1 && (y == 1 ==> Parent(d, i) == x)
  {
    hide Content, EntryBytes, CName, DecodeInum, DirBytes;
    assert Cell(d, i, y) == EntryBytes(DirBytes(d, i), y);
    assert Label(d, i, 0) == DOT;
  }

  lemma {:induction false} LinksBound(d: Disk, x: nat, m: nat)
    requires Rooted(d) && DirsOk(d) && Dir(d, x) && m <= |d.inodes|
    ensures LinksUpTo(d, x, m)
            <= |Children(d, x, m)| + One(x == ROOT && m > ROOT) + One(x != ROOT && m > Parent(d, x))
  {
    hide Rooted, DirsOk, Count, DirBytes, Parent, Dir, Children, LinksUpTo;
    LinksUpToStep(d, x, m);
    if m > 0 {
      RootFacts(d);
      LinksBound(d, x, m - 1);
      CountInDir(d, x, m - 1);
      OneMoreChild(d, x, m - 1);
    }
  }

  lemma OneMoreChild(d: Disk, x: nat, m: nat)
    ensures |Children(d, x, m + 1)| == |Children(d, x, m)| + One(Dir(d, m) && Parent(d, m) == x && m != ROOT)
  {
    hide Dir, Parent;
    if Dir(d, m) && Parent(d, m) == x && m != ROOT {
      assert Children(d, x, m + 1) == Children(d, x, m) + {m};
    } else {
      assert Children(d, x, m + 1) == Children(d, x, m);
    }
  }

  /** A directory has at most one link more than it has entries, so its count is far from wrapping. */
  lemma DirLinksBound(d: Disk, x: nat)
    requires Tree(d, 0) && Rooted(d) && Dir(d, x)
    ensures d.inodes[x].nlink <= d.inodes[x].size / ENTRY + 1 && d.inodes[x].nlink + 2 < USHORT
  {
    hide Rooted, Children, Parent, LinksUpTo, Sound, DirsOk;
    TreeIsSound(d, 0);
    DirSize(d, x);
    LinksBound(d, x, |d.inodes|);
    ChildrenAreNamed(d, x, |d.inodes|);
    assert LinkCountOk(d, x, 0);
  }
}
