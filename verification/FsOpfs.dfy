/**
 The commands of tools/opfs.c on a good image, each said outright: when it is carried out, when it is
 refused without a change, when the program ends for want of blocks or inodes, and where names lead afterwards.
 */
module FsOpfs {
  import opened FsDisk
  import opened FsLinks
  import opened FsImage
  import opened FsDir
  import opened FsUnlink
  import opened FsTree
  import opened FsCommands
  import opened FsReach
  import opened FsNames
  import opened FsGood
  import opened FsReplace
  import opened FsSession
  import opened Options

  ghost predicate IsFile(d: Disk, i: nat) {
    i < |d.inodes| && d.inodes[i].typ == T_FILE
  }

  /** Enough blocks are free for one more entry in the directory. */
  ghost predicate RoomFor(d: Disk, dp: nat) {
    Dir(d, dp) && d.inodes[dp].size <= MAXFILE * BSIZE && EntryCost(d, dp) <= FreeBlocks(d)
  }

  /** Nothing but inode `i`'s contents changed. */
  ghost predicate OnlyContent(d: Disk, d': Disk, i: nat, c: seq<Byte>) {
    && i < |d.inodes| && OthersUntouched(d, d', i)
    && d'.inodes[i] == d.inodes[i].(addrs := d'.inodes[i].addrs, size := |c|)
    && d'.inodes[i].size <= MAXFILE * BSIZE && Content(d', i) == c
  }

  // ----- file contents

  /** Write a buffer into a file. */
  method PutBytes(img: Image, i: nat, buf: seq<Byte>, off: nat) returns (r: Outcome<bool>)
    requires Good(img.Disk()) && |buf| < UINT_LIMIT && off < UINT_LIMIT
    modifies img
    ensures var d := old(img.Disk());
      var may := IsFile(d, i) && off <= d.inodes[i].size && off + |buf| <= MAXFILE * BSIZE && off + |buf| < UINT_LIMIT;
      var fits := may && Footprint(Max(d.inodes[i].size, off + |buf|)) <= FreeBlocks(d) + Footprint(d.inodes[i].size);
      && (r == Ok(true) <==> fits) && (r.Fatal? <==> may && !fits)
      && (r == Ok(false) ==> img.Disk() == d)
      && (r == Ok(true) ==>
            && off <= d.inodes[i].size <= MAXFILE * BSIZE
            && OnlyContent(d, img.Disk(), i, Overwritten(Content(d, i), off, buf)) && Good(img.Disk()))
  {
    hide Tree, Rooted, Connected, Unique, Owned, OthersUntouched, Content, Overwritten, FreeBlocks, Good;
    ghost var d := img.Disk();
    r := Do(img, Write(i, buf, off));
    WriteSafe(d, i, buf, off);
    if r == Ok(true) {
      WroteContent(d, img.Disk(), i, off, buf);
    }
  }

  lemma WriteSafe(d: Disk, i: nat, buf: seq<Byte>, off: nat)
    ensures Safe(d, Write(i, buf, off)) && forall size: nat :: Safe(d, Truncate(i, size))
  {
  }

  lemma WroteContent(d: Disk, d': Disk, i: nat, off: nat, buf: seq<Byte>)
    requires Wrote(d, d', i, off, buf)
    ensures off <= d.inodes[i].size <= MAXFILE * BSIZE
    ensures OnlyContent(d, d', i, Overwritten(Content(d, i), off, buf))
  {
    hide Untouched, Overwritten, Sound;
    ContentLength(d', i);
  }

  lemma CutContent(d: Disk, d': Disk, i: nat, size: nat)
    requires Cut(d, d', i, size)
    ensures d.inodes[i].size <= MAXFILE * BSIZE && OnlyContent(d, d', i, Resized(Content(d, i), size))
  {
    hide Untouched, Resized, Sound;
    ContentLength(d', i);
  }

  lemma ContentLength(d: Disk, i: nat)
    requires i < |d.inodes| && d.inodes[i].size <= MAXFILE * BSIZE
    ensures |Content(d, i)| == d.inodes[i].size
  {
  }

  /** Cut a file or extend it with zeros. */
  method SetSize(img: Image, i: nat, size: nat) returns (r: Outcome<bool>)
    requires Good(img.Disk()) && size < UINT_LIMIT
    modifies img
    ensures var d := old(img.Disk());
      var may := IsFile(d, i) && size <= MAXFILE * BSIZE;
      var fits := may && Footprint(size) <= FreeBlocks(d) + Footprint(d.inodes[i].size);
      && (r == Ok(true) <==> fits) && (r.Fatal? <==> may && !fits)
      && (r == Ok(false) ==> img.Disk() == d)
      && (r == Ok(true) ==>
            && d.inodes[i].size <= MAXFILE * BSIZE
            && OnlyContent(d, img.Disk(), i, Resized(Content(d, i), size)) && Good(img.Disk()))
  {
    hide Tree, Rooted, Connected, Unique, Owned, OthersUntouched, Content, Resized, FreeBlocks, Good;
    ghost var d := img.Disk();
    r := Do(img, Truncate(i, size));
    WriteSafe(d, i, [], 0);
    if r == Ok(true) {
      CutContent(d, img.Disk(), i, size);
    }
  }

  // ----- names

  /** put and mkdir: make a file or a directory under a name that is not in use. */
  method Make(img: Image, rp: nat, name: seq<Byte>, typ: Ushort) returns (r: Outcome<bool>, ghost ip: nat)
    requires Good(img.Disk()) && IsName(name) && typ != 0
    modifies img
    ensures var d := old(img.Disk());
      var may := Dir(d, rp) && !HasName(d, rp, name);
      var fits := may && !NoFreeInode(d.inodes) && d.inodes[rp].size <= MAXFILE * BSIZE
                  && CreateCost(d, rp, typ) <= FreeBlocks(d);
      && (r == Ok(true) <==> fits) && (r.Fatal? <==> may && !fits)
      && (r == Ok(false) ==> img.Disk() == d)
      && (r == Ok(true) ==>
            && FirstFree(d.inodes, ip) && ip < |img.inodes| && img.inodes[ip].typ == typ
            && (if Full(d, rp) then !HasName(img.Disk(), rp, name) else Leads(img.Disk(), rp, name, ip))
            && (typ == T_DIR ==> Leads(img.Disk(), ip, DOT, ip) && Leads(img.Disk(), ip, DOTDOT, rp))
            && NamesKept(d, img.Disk(), {(rp, name)}, {ip}) && Frame(d, img.Disk(), {rp, ip})
            && (typ != T_DIR || !Full(d, rp) ==> Good(img.Disk())))
  {
    hide Tree, Rooted, Connected, Unique, Owned, Frame, IsName, HasName, FirstFree, NoFreeInode, MadeAt, Leads,
         NamesKept, FreeBlocks, CreateCost, Full;
    ghost var d := img.Disk();
    ip := 0;
    if rp < |img.inodes| {
      DirSizeOf(d, rp);
    }
    r := Do(img, Create(rp, name, typ));
    if r == Ok(true) {
      ghost var x: nat, at: nat :| MadeAt(d, img.Disk(), rp, name, typ, x, at);
      ip := x;
      MadeNames(d, img.Disk(), rp, name, typ, x, at);
    }
  }

  lemma DirSizeOf(d: Disk, i: nat)
    requires Good(d)
    ensures Dir(d, i) ==> d.inodes[i].size <= MAXFILE * BSIZE
  {
    hide Tree, Rooted, Connected, Unique, Sound, DirsOk, DirOk, Owned;
    TreeIsSound(d, 0);
    if Dir(d, i) {
      DirSize(d, i);
    }
  }

  lemma MadeNames(d: Disk, d': Disk, rp: nat, name: seq<Byte>, typ: Ushort, ip: nat, at: nat)
    requires Good(d) && MadeAt(d, d', rp, name, typ, ip, at) && IsName(name) && Dir(d, rp) && !HasName(d, rp, name)
    ensures FirstFree(d.inodes, ip) && ip < |d'.inodes| && d'.inodes[ip].typ == typ
    ensures if Full(d, rp) then !HasName(d', rp, name) else Leads(d', rp, name, ip)
    ensures typ == T_DIR ==> Leads(d', ip, DOT, ip) && Leads(d', ip, DOTDOT, rp)
    ensures NamesKept(d, d', {(rp, name)}, {ip}) && Frame(d, d', {rp, ip})
  {
    hide Tree, Rooted, Connected, Unique, IsName, Created, Leads, NamesKept, Frame, Full, HasName, Sound, DirsOk, Owned;
    TreeIsSound(d, 0);
    CreateNames(d, d', rp, name, typ, ip, at);
    CreatedType(d, d', rp, name, typ, ip, at);
  }

  lemma CreatedType(d: Disk, d': Disk, rp: nat, name: seq<Byte>, typ: Ushort, ip: nat, at: nat)
    requires Created(d, d', rp, name, typ, ip, at)
    ensures ip < |d'.inodes| && d'.inodes[ip].typ == typ
  {
  }

  /** A link was added: the name leads to the file, which has one link more, and no other name changed. */
  ghost predicate LinkAddedTo(d: Disk, d': Disk, dp: nat, name: seq<Byte>, ip: nat) {
    && ip < |d.inodes| == |d'.inodes| && Leads(d', dp, name, ip) && NamesKept(d, d', {(dp, name)}, {})
    && Frame(d, d', {dp, ip}) && d'.inodes[ip].nlink == (d.inodes[ip].nlink + 1) % USHORT
  }

  lemma LinkedAdds(d: Disk, d': Disk, dp: nat, name: seq<Byte>, ip: nat, e: nat, m: Disk)
    requires Good(d) && Linked(d, d', dp, name, ip, e, m) && IsName(name) && name != DOT
    ensures LinkAddedTo(d, d', dp, name, ip)
  {
    hide Tree, Rooted, Connected, Unique, IsName, Linked, Leads, NamesKept, Frame, Sound, DirsOk, Owned, CellWritten;
    TreeIsSound(d, 0);
    LinkNames(d, d', dp, name, ip, e, m);
    LinkedEffect(d, d', dp, name, ip, e, m);
    LinkedRange(d, d', dp, name, ip, e, m);
    FrameLength(d, d', {dp, ip});
  }

  /** ln to a name that does not exist. */
  method Ln(img: Image, dp: nat, name: seq<Byte>, ip: nat) returns (r: Outcome<bool>)
    requires Good(img.Disk()) && IsName(name)
    modifies img
    ensures var d := old(img.Disk());
      var may := Dir(d, dp) && IsFile(d, ip) && !HasName(d, dp, name) && !Full(d, dp);
      && (r == Ok(true) <==> may && RoomFor(d, dp)) && (r.Fatal? <==> may && !RoomFor(d, dp))
      && (r == Ok(false) ==> img.Disk() == d)
      && (r == Ok(true) ==> LinkAddedTo(d, img.Disk(), dp, name, ip))
      && (r == Ok(true) && d.inodes[ip].nlink < USHORT - 1 ==> Good(img.Disk()))
  {
    hide Tree, Rooted, Connected, Unique, Owned, IsName, HasName, Full, FreeBlocks, EntryCost, Linked, LinkAddedTo,
         Noticed;
    ghost var d := img.Disk();
    DirSizeOf(d, dp);
    r := Do(img, Link(dp, name, ip));
    if r == Ok(true) {
      ghost var e: nat, m: Disk :| Linked(d, img.Disk(), dp, name, ip, e, m);
      UnusedIsNoDot(d, dp, name);
      LinkedAdds(d, img.Disk(), dp, name, ip, e, m);
    }
  }

  /** ln into a directory: a name behind an empty entry is overlooked. */
  method LnInto(img: Image, dp: nat, name: seq<Byte>, ip: nat) returns (r: Outcome<bool>)
    requires Good(img.Disk()) && IsName(name) && name != DOT && name != DOTDOT
    modifies img
    ensures var d := old(img.Disk());
      var may := Dir(d, dp) && IsFile(d, ip) && !Full(d, dp)
                 && !exists x: nat :: Label(d, dp, x) == name && forall y: nat | y <= x :: Target(d, dp, y) != 0;
      && (r == Ok(true) <==> may && RoomFor(d, dp)) && (r.Fatal? <==> may && !RoomFor(d, dp))
      && (r == Ok(false) ==> img.Disk() == d)
      && (r == Ok(true) ==> LinkAddedTo(d, img.Disk(), dp, name, ip))
      && (r == Ok(true) && d.inodes[ip].nlink < USHORT - 1 && !HasName(d, dp, name) ==> Good(img.Disk()))
  {
    hide Tree, Rooted, Connected, Unique, Owned, IsName, HasName, Full, FreeBlocks, EntryCost, Linked, LinkAddedTo,
         Label, Target;
    ghost var d := img.Disk();
    DirSizeOf(d, dp);
    r := Do(img, LinkInto(dp, name, ip));
    if r == Ok(true) {
      ghost var e: nat, m: Disk :| Linked(d, img.Disk(), dp, name, ip, e, m);
      LinkedAdds(d, img.Disk(), dp, name, ip, e, m);
    }
  }

  /** A name was taken away: it leads nowhere, its inode has a link less or is gone, and no other name changed. */
  ghost predicate NameTaken(d: Disk, d': Disk, rp: nat, name: seq<Byte>, x: nat) {
    && x < |d.inodes| == |d'.inodes| && !HasName(d', rp, name)
    && NamesKept(d, d', {(rp, name)}, if Dir(d, x) then {x} else {}) && Frame(d, d', {rp, x})
    && if d.inodes[x].nlink == 1 then d'.inodes[x].typ == 0
       else d'.inodes[x].typ == d.inodes[x].typ && d'.inodes[x].nlink == d.inodes[x].nlink - 1
  }

  /** rm: take a name that leads to no directory away. */
  method Rm(img: Image, rp: nat, name: seq<Byte>) returns (r: Outcome<bool>)
    requires Good(img.Disk()) && IsName(name)
    modifies img
    ensures var d := old(img.Disk());
      && (r == Ok(true) <==> Dir(d, rp) && exists x: nat :: Leads(d, rp, name, x) && !Dir(d, x))
      && !r.Fatal? && (r == Ok(false) ==> img.Disk() == d) && Good(img.Disk())
      && (r == Ok(true) ==> forall x: nat | Leads(d, rp, name, x) :: NameTaken(d, img.Disk(), rp, name, x))
  {
    hide Tree, Rooted, Connected, Unique, Owned, IsName, HasName, UnlinkedAt, NameTaken, Leads, Finds, Target;
    ghost var d := img.Disk();
    RmMay(d, rp, name);
    r := Do(img, Unlink(rp, name));
    if r == Ok(true) {
      ghost var e: nat, m: Disk :| UnlinkedAt(d, img.Disk(), rp, name, e, m);
      RmDone(d, img.Disk(), rp, name, e, m);
    }
  }

  lemma RmMay(d: Disk, rp: nat, name: seq<Byte>)
    requires Good(d) && IsName(name)
    ensures (exists e: nat :: Finds(d, rp, name, e) && !Dir(d, Target(d, rp, e)))
            <==> exists x: nat :: Leads(d, rp, name, x) && !Dir(d, x)
    ensures (exists e: nat :: Finds(d, rp, name, e) && EmptyDirAt(d, Target(d, rp, e)))
            <==> exists x: nat :: Leads(d, rp, name, x) && EmptyDirAt(d, x)
  {
    hide Tree, Rooted, Connected, Label, Target, IsName, EmptyDirAt, Dir, Leads, Finds, Unique;
    if HasName(d, rp, name) {
      var e: nat :| Label(d, rp, e) == name;
      NameLength(name);
      LeadsByEntry(d, rp, name, e);
      OneFound(d, rp, name, e);
    } else {
      NoLead(d, rp, name);
      NoneFound(d, rp, name);
    }
  }

  lemma RmDone(d: Disk, d': Disk, rp: nat, name: seq<Byte>, e: nat, m: Disk)
    requires Good(d) && Dir(d, rp) && IsName(name) && UnlinkedAt(d, d', rp, name, e, m)
    requires exists x: nat :: Leads(d, rp, name, x) && !Dir(d, x)
    ensures forall x: nat | Leads(d, rp, name, x) :: NameTaken(d, d', rp, name, x)
  {
    hide Tree, Rooted, Connected, Unique, Label, Target, IsName, Leads, Finds, UnlinkDone, HasName, NamesKept, Frame,
         Orphans, CellWritten, Owned;
    NameLength(name);
    FindsLabel(d, rp, name, e);
    LeadsByEntry(d, rp, name, e);
    var x := Target(d, rp, e);
    UnlinkNames(d, d', rp, e, x, m);
    UnlinkKeepsUnique(d, d', rp, e, x, m);
    UnlinkCells(d, d', rp, e, x, m);
    UnlinkRange(d, d', rp, e, x, m);
    UnlinkedIsOwned(d, d', rp, e, x, m);
    ParentMeansNone(d, x, rp);
    FrameLength(d, d', {rp, x});
  }

  lemma {:induction false} TwoOccupied(c: seq<Byte>, n: nat)
    requires ENTRY * n <= |c|
    requires forall e: nat | e < n :: Inum(c, e) != 0 <==> e < 2
    ensures OccupiedTo(c, n) == if n < 2 then n else 2
  {
    hide EntryBytes, DecodeInum;
    if n > 0 {
      TwoOccupied(c, n - 1);
      assert Inum(c, n - 1) != 0 <==> n - 1 < 2;
    }
  }

  /** A directory is taken for empty exactly if nothing is in use behind its "." and "..". */
  lemma EmptyMeans(d: Disk, x: nat)
    requires Good(d) && Dir(d, x)
    ensures EmptyDirAt(d, x) <==> forall e: nat | e >= 2 :: Target(d, x, e) == 0
  {
    hide Tree, Rooted, Connected, Unique, Sound, DirsOk, DirOk, Owned, Content, EntryBytes, DecodeInum, CName, Target,
         Label, Bare;
    TreeIsSound(d, 0);
    DirSize(d, x);
    if EmptyDirAt(d, x) {
      forall e: nat | e >= 2 ensures Target(d, x, e) == 0 {
        BareCells(d, x, e);
      }
    }
    if forall e: nat | e >= 2 :: Target(d, x, e) == 0 {
      NoMoreIsBare(d, x);
    }
  }

  lemma NoMoreIsBare(d: Disk, x: nat)
    requires Rooted(d) && Dir(d, x) && d.inodes[x].size <= MAXFILE * BSIZE
    requires forall e: nat | e >= 2 :: Target(d, x, e) == 0
    ensures Bare(Content(d, x))
  {
    hide Rooted, Content, EntryBytes, DecodeInum, CName, Target, Label, OccupiedTo;
    var c := Content(d, x);
    RootFacts(d);
    DirFacts(d, x);
    CellOfContent(d, x, 0);
    CellOfContent(d, x, 1);
    forall e: nat | e < |c| / ENTRY ensures Inum(c, e) != 0 <==> e < 2 {
      CellOfContent(d, x, e);
    }
    TwoOccupied(c, |c| / ENTRY);
  }

  /** rmdir: take an empty directory and its name away. */
  method RmDirectory(img: Image, rp: nat, name: seq<Byte>) returns (r: Outcome<bool>)
    requires Good(img.Disk()) && IsName(name)
    modifies img
    ensures var d := old(img.Disk());
      && (r == Ok(true) <==>
            && Dir(d, rp) && name != DOT && name != DOTDOT
            && exists x: nat :: Leads(d, rp, name, x) && EmptyDirAt(d, x))
      && !r.Fatal? && (r == Ok(false) ==> img.Disk() == d) && Good(img.Disk())
      && (r == Ok(true) ==>
            && !HasName(img.Disk(), rp, name) && |img.inodes| == |d.inodes|
            && forall x: nat | Leads(d, rp, name, x) ::
                 && x < |d.inodes| && img.inodes[x].typ == 0 && NamesKept(d, img.Disk(), {(rp, name)}, {x})
                 && Frame(d, img.Disk(), {rp, x}))
  {
    hide Tree, Rooted, Connected, Unique, Owned, IsName, HasName, RemovedAt, Leads, Finds, Target, NamesKept, Frame,
         EmptyDirAt;
    ghost var d := img.Disk();
    RmMay(d, rp, name);
    r := Do(img, RemoveDir(rp, name));
    if r == Ok(true) {
      ghost var e: nat :| RemovedAt(d, img.Disk(), rp, name, e);
      RmDirDone(d, img.Disk(), rp, name, e);
    }
  }

  lemma RmDirDone(d: Disk, d': Disk, rp: nat, name: seq<Byte>, e: nat)
    requires Good(d) && IsName(name) && RemovedAt(d, d', rp, name, e)
    ensures !HasName(d', rp, name) && |d'.inodes| == |d.inodes|
    ensures forall x: nat | Leads(d, rp, name, x) ::
      && x < |d.inodes| && d'.inodes[x].typ == 0 && NamesKept(d, d', {(rp, name)}, {x}) && Frame(d, d', {rp, x})
  {
    hide Tree, Rooted, Connected, Unique, Label, Target, IsName, Leads, Finds, HasName, NamesKept, Frame, Removed,
         EmptyDirAt;
    NameLength(name);
    FindsLabel(d, rp, name, e);
    LeadsByEntry(d, rp, name, e);
    RemovalNames(d, d', rp, e, Target(d, rp, e));
    RemovalKeepsUnique(d, d', rp, e, Target(d, rp, e));
    RemovedInode(d, d', rp, e, Target(d, rp, e));
  }

  lemma RemovedInode(d: Disk, d': Disk, rp: nat, e: nat, x: nat)
    requires Removed(d, d', rp, e, x)
    ensures x < |d.inodes| == |d'.inodes| && d'.inodes[x].typ == 0
  {
  }

  // ----- mv

  /** What may be put in place of what: a file for a file, a directory for an empty one. */
  ghost predicate Replaces(d: Disk, sip: nat, tip: nat) {
    if Dir(d, tip) then Dir(d, sip) && EmptyDirAt(d, tip) else IsFile(d, sip) && IsFile(d, tip)
  }

  /** The directories that one of the two names leads to: their own entries may change. */
  ghost function Movers(d: Disk, oldp: nat, sname: seq<Byte>, newp: nat, dname: seq<Byte>): set<nat> {
    set x: nat | x < |d.inodes| && Dir(d, x) && (Leads(d, oldp, sname, x) || Leads(d, newp, dname, x))
  }

  /** The new name leads where the old one did, which is gone; if they are the same, it is gone too. */
  ghost predicate NameMoved(d: Disk, d': Disk, oldp: nat, sname: seq<Byte>, newp: nat, dname: seq<Byte>) {
    && !HasName(d', oldp, sname)
    && (oldp != newp || sname != dname ==> forall sip: nat | Leads(d, oldp, sname, sip) :: Leads(d', newp, dname, sip))
    && NamesKept(d, d', {(oldp, sname), (newp, dname)}, Movers(d, oldp, sname, newp, dname))
  }

  /** mv, to a new name or over an existing one; nothing goes below itself or is lost to a full directory. */
  method Mv(img: Image, oldp: nat, sname: seq<Byte>, newp: nat, dname: seq<Byte>) returns (r: Outcome<bool>)
    requires Good(img.Disk()) && IsName(sname) && IsName(dname) && {sname, dname} !! {DOT, DOTDOT}
    requires Full(img.Disk(), newp) ==> HasName(img.Disk(), newp, dname)
    requires forall sip: nat | Leads(img.Disk(), oldp, sname, sip) && Dir(img.Disk(), sip) ::
      !Below(img.Disk(), newp, sip)
    modifies img
    ensures var d := old(img.Disk());
      var may := && Dir(d, oldp) && Dir(d, newp) && HasName(d, oldp, sname)
                 && forall sip: nat, tip: nat | Leads(d, oldp, sname, sip) && Leads(d, newp, dname, tip) ::
                      Replaces(d, sip, tip);
      var fits := may && (HasName(d, newp, dname) || RoomFor(d, newp));
      && (r == Ok(true) <==> fits) && (r.Fatal? <==> may && !fits)
      && (r == Ok(false) ==> img.Disk() == d)
      && (r == Ok(true) ==> Good(img.Disk()) && NameMoved(d, img.Disk(), oldp, sname, newp, dname))
  {
    hide Tree, Rooted, Connected, Unique, Owned, IsName, HasName, Leads, Finds, Target, NameMoved, Full, Below,
         EmptyDirAt, FreeBlocks, EntryCost, Effect, Dir, Accepted;
    ghost var d := img.Disk();
    DirSizeOf(d, newp);
    MvSafe(d, oldp, sname, newp, dname);
    if oldp < |img.inodes| && newp < |img.inodes| && IsDir(img.inodes[oldp]) && IsDir(img.inodes[newp]) {
      MvMay(d, oldp, sname, newp, dname);
    }
    MvDirs(d, oldp, newp);
    r := Do(img, Move(oldp, sname, newp, dname));
    if r == Ok(true) {
      MvDone(d, img.Disk(), oldp, sname, newp, dname);
    }
  }

  lemma MvDirs(d: Disk, oldp: nat, newp: nat)
    ensures Dir(d, oldp) <==> oldp < |d.inodes| && IsDir(d.inodes[oldp])
    ensures Dir(d, newp) <==> newp < |d.inodes| && IsDir(d.inodes[newp])
  {
  }

  lemma MvSafe(d: Disk, oldp: nat, sname: seq<Byte>, newp: nat, dname: seq<Byte>)
    requires Good(d) && IsName(sname) && {sname, dname} !! {DOT, DOTDOT}
    requires Full(d, newp) ==> HasName(d, newp, dname)
    requires forall sip: nat | Leads(d, oldp, sname, sip) && Dir(d, sip) :: !Below(d, newp, sip)
    ensures Safe(d, Move(oldp, sname, newp, dname))
  {
    hide Tree, Rooted, Connected, Unique, IsName, HasName, Leads, Finds, Target, Full, Below, Dir, Label;
    forall e: nat | Finds(d, oldp, sname, e) && Dir(d, Target(d, oldp, e)) ensures !Below(d, newp, Target(d, oldp, e)) {
      NameLength(sname);
      FindsLabel(d, oldp, sname, e);
      LeadsByEntry(d, oldp, sname, e);
    }
  }

  lemma MvMay(d: Disk, oldp: nat, sname: seq<Byte>, newp: nat, dname: seq<Byte>)
    requires Good(d) && Sensible(d.inodes, Move(oldp, sname, newp, dname))
    ensures Accepted(d, Move(oldp, sname, newp, dname)) <==>
      && HasName(d, oldp, sname)
      && forall sip: nat, tip: nat | Leads(d, oldp, sname, sip) && Leads(d, newp, dname, tip) :: Replaces(d, sip, tip)
  {
    hide Tree, Rooted, Connected, Unique, IsName, Leads, Finds, Target, Label, EmptyDirAt, HasName;
    if HasName(d, oldp, sname) {
      var es := EntryOf(d, oldp, sname);
      if HasName(d, newp, dname) {
        var et := EntryOf(d, newp, dname);
        assert Finds(d, oldp, sname, es) && Finds(d, newp, dname, et);
        assert Leads(d, oldp, sname, Target(d, oldp, es)) && Leads(d, newp, dname, Target(d, newp, et));
        assert MayReplace(d, Target(d, oldp, es), Target(d, newp, et)) <==>
               Replaces(d, Target(d, oldp, es), Target(d, newp, et));
      } else {
        assert Finds(d, oldp, sname, es);
        NoLead(d, newp, dname);
        NoneFound(d, newp, dname);
      }
    } else {
      NoneFound(d, oldp, sname);
    }
  }

  lemma EntryOf(d: Disk, i: nat, name: seq<Byte>) returns (e: nat)
    requires Good(d) && IsName(name) && HasName(d, i, name)
    ensures Label(d, i, e) == name && forall f: nat :: Finds(d, i, name, f) <==> f == e
    ensures forall x: nat :: Leads(d, i, name, x) <==> x == Target(d, i, e)
  {
    hide Tree, Rooted, Connected, Unique, IsName, Leads, Finds, Target, Label;
    e :| Label(d, i, e) == name;
    NameLength(name);
    LeadsByEntry(d, i, name, e);
    OneFound(d, i, name, e);
  }

  lemma MvDone(d: Disk, d': Disk, oldp: nat, sname: seq<Byte>, newp: nat, dname: seq<Byte>)
    requires Good(d) && Sensible(d.inodes, Move(oldp, sname, newp, dname)) && Safe(d, Move(oldp, sname, newp, dname))
    requires Accepted(d, Move(oldp, sname, newp, dname)) && Effect(d, Move(oldp, sname, newp, dname), d')
    requires HasName(d, oldp, sname)
    ensures NameMoved(d, d', oldp, sname, newp, dname)
  {
    hide Tree, Rooted, Connected, Unique, IsName, RenamedAt, ReplacedAt, Finds, HasName, Full, Below, MayReplace,
         Target, Safe, Accepted, Leads, NamesKept, Label, Movers;
    var es := EntryOf(d, oldp, sname);
    MoveLandsIff(d, d', oldp, sname, newp, dname, es);
    if !HasName(d, newp, dname) {
      var f: nat, e: nat :| RenamedAt(d, d', oldp, sname, newp, dname, f, e);
      RenamedNames(d, d', oldp, sname, newp, dname, f, e);
    } else if oldp == newp && sname == dname {
      SelfNames(d, d', oldp, sname);
    } else {
      var f: nat, et: nat, d1: Disk, m: Disk, e: nat :|
        ReplacedAt(d, d', oldp, sname, newp, dname, f, et, d1, m, e);
      ReplacedNames(d, d', oldp, sname, newp, dname, f, et, d1, m, e);
    }
  }

  lemma IsMover(d: Disk, oldp: nat, sname: seq<Byte>, newp: nat, dname: seq<Byte>, x: nat)
    ensures Dir(d, x) && (Leads(d, oldp, sname, x) || Leads(d, newp, dname, x)) ==>
      x in Movers(d, oldp, sname, newp, dname)
  {
    hide Leads;
  }

  lemma RenamedNames(d: Disk, d': Disk, oldp: nat, sname: seq<Byte>, newp: nat, dname: seq<Byte>, es: nat, e: nat)
    requires Good(d) && Sensible(d.inodes, Move(oldp, sname, newp, dname)) && Safe(d, Move(oldp, sname, newp, dname))
    requires !HasName(d, newp, dname) && RenamedAt(d, d', oldp, sname, newp, dname, es, e)
    ensures !HasName(d', oldp, sname)
    ensures NamesKept(d, d', {(oldp, sname), (newp, dname)}, Movers(d, oldp, sname, newp, dname))
  {
    hide Tree, Rooted, Connected, Unique, IsName, Finds, HasName, Full, Below, Moved, Target, Label, Safe, Movable,
         Leads, NamesKept, Movers, Sound, DirsOk, Owned;
    var sip := Target(d, oldp, es);
    TreeIsSound(d, 0);
    MoveStarts(d, oldp, sname, newp, dname, es);
    MoveKeepsUnique(d, d', oldp, sname, newp, dname, sip, es, e);
    NameLength(sname);
    FindsLabel(d, oldp, sname, es);
    LeadsByEntry(d, oldp, sname, es);
    IsMover(d, oldp, sname, newp, dname, sip);
    MoveNames(d, d', oldp, es, newp, e, sip, dname);
    NamesKeptWider(d, d', {(oldp, sname), (newp, dname)}, if Dir(d, sip) then {sip} else {},
                   {(oldp, sname), (newp, dname)}, Movers(d, oldp, sname, newp, dname));
  }

  lemma SelfNames(d: Disk, d': Disk, dp: nat, name: seq<Byte>)
    requires Good(d) && IsName(name) && exists e: nat :: SelfMoved(d, d', dp, name, e)
    ensures !HasName(d', dp, name)
    ensures NamesKept(d, d', {(dp, name), (dp, name)}, Movers(d, dp, name, dp, name))
  {
    hide Tree, Rooted, Connected, Unique, IsName, Finds, HasName, Target, Label, Leads, NamesKept, Movers, Frame;
    var e: nat :| SelfMoved(d, d', dp, name, e);
    var x := Target(d, dp, e);
    NameLength(name);
    FindsLabel(d, dp, name, e);
    LeadsByEntry(d, dp, name, e);
    IsMover(d, dp, name, dp, name, x);
    NamesKeptWider(d, d', {(dp, name)}, if Dir(d, x) then {x} else {}, {(dp, name), (dp, name)},
                   Movers(d, dp, name, dp, name));
  }

  lemma ReplacedNames(d: Disk, d': Disk, oldp: nat, sname: seq<Byte>, newp: nat, dname: seq<Byte>, es: nat, et: nat,
                      d1: Disk, m: Disk, e: nat)
    requires Good(d) && Sensible(d.inodes, Move(oldp, sname, newp, dname)) && Safe(d, Move(oldp, sname, newp, dname))
    requires Accepted(d, Move(oldp, sname, newp, dname)) && (oldp != newp || sname != dname)
    requires ReplacedAt(d, d', oldp, sname, newp, dname, es, et, d1, m, e)
    ensures !HasName(d', oldp, sname)
    ensures NamesKept(d, d', {(oldp, sname), (newp, dname)}, Movers(d, oldp, sname, newp, dname))
  {
    hide Tree, Rooted, Connected, Unique, IsName, Finds, HasName, Full, Below, Moved, Target, Label, UnlinkDone,
         Accepted, Safe, Replaceable, Leads, NamesKept, Movers, Frame, Sound, DirsOk, Owned;
    var sip, tip := Target(d, oldp, es), Target(d, newp, et);
    var named, movers := {(oldp, sname), (newp, dname)}, Movers(d, oldp, sname, newp, dname);
    ReplaceStarts(d, oldp, sname, newp, dname, es, et);
    TargetGone(d, d1, oldp, sname, newp, dname, sip, tip, es, et, m);
    SourceMovable(d, d1, oldp, sname, newp, dname, sip, tip, es, et, m);
    MoveKeepsUnique(d1, d', oldp, sname, newp, dname, sip, es, e);
    NameLength(sname);
    NameLength(dname);
    FindsLabel(d, oldp, sname, es);
    FindsLabel(d, newp, dname, et);
    FindsLabel(d1, oldp, sname, es);
    LeadsByEntry(d, oldp, sname, es);
    LeadsByEntry(d, newp, dname, et);
    IsMover(d, oldp, sname, newp, dname, sip);
    IsMover(d, oldp, sname, newp, dname, tip);
    UnlinkNames(d, d1, newp, et, tip, m);
    NamesKeptWider(d, d1, {(newp, dname)}, if Dir(d, tip) then {tip} else {}, named, movers);
    TreeIsSound(d1, 0);
    MoveNames(d1, d', oldp, es, newp, e, sip, dname);
    NamesKeptWider(d1, d', named, if Dir(d1, sip) then {sip} else {}, named, movers);
    NamesKeptTrans(d, d1, d', named, movers);
  }
}
