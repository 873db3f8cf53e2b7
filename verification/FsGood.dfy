/** What an image is to be, whatever commands have run on it, and what keeps it so. */
module FsGood {
  import opened FsDisk
  import opened FsLinks
  import opened FsDir
  import opened FsUnlink
  import opened FsTree
  import opened FsCommands
  import opened FsReach
  import opened FsNames

  /** Right counts, the right shape, everything below the root, and names apart. */
  ghost predicate Good(d: Disk) {
    Tree(d, 0) && Rooted(d) && Connected(d) && Unique(d)
  }

  // ----- writing to a file

  /** Inode `i`, no directory, got other contents; nothing else changed. */
  ghost predicate FileChanged(d: Disk, d': Disk, i: nat) {
    && i < |d.inodes| && !Dir(d, i) && OthersUntouched(d, d', i) && Sound(d')
    && d'.inodes[i] == d.inodes[i].(addrs := d'.inodes[i].addrs, size := d'.inodes[i].size)
  }

  lemma FileChangeKeepsDirs(d: Disk, d': Disk, i: nat)
    requires FileChanged(d, d', i) && DirsOk(d)
    ensures DirsOk(d') && SameTypes(d, d')
    ensures forall x: nat | x < |d.inodes| ::
      DirBytes(d', x) == DirBytes(d, x) && d'.inodes[x].nlink == d.inodes[x].nlink
  {
    hide Sound, DirOk, Content, Untouched;
    forall x: nat | x < |d.inodes|
      ensures d'.inodes[x].typ == d.inodes[x].typ && d'.inodes[x].nlink == d.inodes[x].nlink
      ensures DirBytes(d', x) == DirBytes(d, x)
    {
      if x != i {
        assert Untouched(d, d', x);
        UntouchedFields(d, d', x);
        UntouchedDirBytes(d, d', x);
      }
    }
    forall x: nat | x < |d'.inodes| && IsDir(d'.inodes[x]) ensures DirOk(d', x) {
      assert Untouched(d, d', x) && DirOk(d, x);
      OtherDirStaysOk(d, d', x);
    }
  }

  lemma UntouchedFields(d: Disk, d': Disk, x: nat)
    requires Untouched(d, d', x)
    ensures x < |d.inodes| && x < |d'.inodes| && d'.inodes[x] == d.inodes[x]
  {
  }

  /** Writing to a file, or cutting it, keeps the whole invariant. */
  lemma FileChangeKeeps(d: Disk, d': Disk, i: nat)
    requires FileChanged(d, d', i)
    ensures Tree(d, 0) ==> Tree(d', 0)
    ensures Tree(d, 0) && Rooted(d) ==> Rooted(d')
    ensures Tree(d, 0) && Rooted(d) && Connected(d) ==> Connected(d')
    ensures Tree(d, 0) && Unique(d) ==> Unique(d')
  {
    hide Rooted, Connected, Unique, Sound, DirsOk, Links, DirBytes, Cell, OthersUntouched;
    if Tree(d, 0) {
      TreeIsSound(d, 0);
      FileChangeKeepsDirs(d, d', i);
      forall x: nat | x < |d'.inodes| ensures LinkCountOk(d', x, 0) {
        assert LinkCountOk(d, x, 0);
        LinksChange(d, d', i, x);
      }
      TreeFromCounts(d', 0);
      forall j: nat, e: nat ensures Cell(d', j, e) == Cell(d, j, e) {
        SameCell(d, d', j, e);
      }
      SameLabels(d, d');
      if Rooted(d) {
        SameCellsSameShape(d, d');
        if Connected(d) {
          SameUpsConnected(d, d');
        }
      }
    }
  }

  lemma SameCell(d: Disk, d': Disk, j: nat, e: nat)
    requires |d'.inodes| == |d.inodes| && forall x: nat | x < |d.inodes| :: DirBytes(d', x) == DirBytes(d, x)
    ensures Cell(d', j, e) == Cell(d, j, e)
  {
    hide DirBytes, EntryBytes;
  }

  lemma SameLabels(d: Disk, d': Disk)
    requires forall j: nat, e: nat :: Cell(d', j, e) == Cell(d, j, e)
    ensures Unique(d) ==> Unique(d')
  {
    hide Cell, DecodeName;
    if Unique(d) {
      FewerNames(d, d');
    }
  }

  // ----- making, unlinking and removing

  lemma CreatedIsGood(d: Disk, d': Disk, rp: nat, name: seq<Byte>, typ: Ushort, ip: nat, at: nat)
    requires Good(d) && Dir(d, rp) && DirOk(d, rp) && IsName(name) && NotNamed(Content(d, rp), name)
    requires (typ == T_DIR ==> !Full(d, rp)) && FirstFree(d.inodes, ip) && Created(d, d', rp, name, typ, ip, at)
    ensures Rooted(d') && Connected(d') && Unique(d')
  {
    hide Tree, Rooted, Connected, Unique, Sound, Full, DirsOk, Content, NotNamed, Cell, Label, Target, Finds, IsName,
         Encode, EntryOk;
    TreeIsSound(d, 0);
    NameLength(name);
    NotNamedMeans(d, rp, name);
    CreateKeepsConnected(d, d', rp, name, typ, ip, at);
    CreateKeepsUnique(d, d', rp, name, typ, ip, at);
  }

  lemma NotInUse(d: Disk, i: nat, name: seq<Byte>)
    requires Rooted(d) && Dir(d, i) && d.inodes[i].size <= MAXFILE * BSIZE && IsName(name)
    requires NotNamed(Content(d, i), name)
    ensures name != DOT && name != DOTDOT && !HasName(d, i, name)
  {
    hide Rooted, Content, NotNamed, IsName, Label;
    NameLength(name);
    NotNamedMeans(d, i, name);
    DirFacts(d, i);
    DotsNamed(d, i, name);
  }

  lemma UnlinkedIsGood(d: Disk, d': Disk, rp: nat, name: seq<Byte>, e: nat, ip: nat, d1: Disk)
    requires Good(d) && Dir(d, rp) && IsName(name) && Finds(d, rp, name, e) && Target(d, rp, e) == ip && !Dir(d, ip)
    requires UnlinkDone(d, d', rp, e, ip, d1)
    ensures Good(d') && Owned(d')
  {
    hide Tree, Rooted, Connected, Unique, Sound, Owned, UnlinkDone, IsName, Label, Target, DirsOk, OnlyOwes, Orphans;
    TreeIsSound(d, 0);
    NameLength(name);
    UnlinkKeepsShape(d, d', rp, e, ip, d1);
    UnlinkKeepsConnected(d, d', rp, e, ip, d1);
    UnlinkKeepsUnique(d, d', rp, e, ip, d1);
    UnlinkedIsOwned(d, d', rp, e, ip, d1);
    ParentMeans(d, ip, rp);
    if d'.inodes[ip].typ == 0 {
      FreedCounts(d, d', rp, e, ip, d1);
      NoDirOwes(d, ip);
    }
  }

  lemma NoDirOwes(d: Disk, x: nat)
    requires x < |d.inodes| && !Dir(d, x)
    ensures OnlyOwes(d, x, 0)
  {
    NoDirBytes(d, x);
  }
}
