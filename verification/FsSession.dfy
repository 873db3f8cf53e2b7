/** The commands of tools/opfs.c that change the image: what each does, and what every session of them keeps. */
module FsSession {
  import opened FsDisk
  import opened FsLinks
  import opened FsImage
  import opened FsDir
  import opened FsUnlink
  import opened FsTree
  import opened FsCommands
  import opened FsReach
  import opened FsNames
  import opened FsGood
  import opened FsReplace
  import opened Options

  // ----- the commands

  /** With paths walked: a directory is given by its inode, with the last name. `LinkInto` is ln to a directory. */
  datatype Command =
    | Write(inum: nat, buf: seq<Byte>, off: nat)
    | Truncate(inum: nat, size: nat)
    | Create(dir: nat, name: seq<Byte>, typ: Ushort)
    | Link(dir: nat, name: seq<Byte>, inum: nat)
    | LinkInto(dir: nat, name: seq<Byte>, inum: nat)
    | Unlink(dir: nat, name: seq<Byte>)
    | RemoveDir(dir: nat, name: seq<Byte>)
    | Move(dir: nat, name: seq<Byte>, newDir: nat, newName: seq<Byte>)

  /** The arguments a command checks, or finds by walking a path, before it starts. */
  predicate Sensible(inodes: seq<Dinode>, c: Command) {
    match c
    case Write(i, buf, off) => i < |inodes| && inodes[i].typ == T_FILE && |buf| < UINT_LIMIT && off < UINT_LIMIT
    case Truncate(i, size) => i < |inodes| && inodes[i].typ == T_FILE && size < UINT_LIMIT
    case Create(rp, name, typ) => rp < |inodes| && IsDir(inodes[rp]) && IsName(name) && typ != 0
    case Link(dp, name, ip) =>
      dp < |inodes| && IsDir(inodes[dp]) && IsName(name) && ip < |inodes| && inodes[ip].typ == T_FILE
    case LinkInto(dp, name, ip) =>
      && dp < |inodes| && IsDir(inodes[dp]) && IsName(name) && name != DOT && name != DOTDOT
      && ip < |inodes| && inodes[ip].typ == T_FILE
    case Unlink(rp, name) => rp < |inodes| && IsDir(inodes[rp]) && IsName(name)
    case RemoveDir(rp, name) => rp < |inodes| && IsDir(inodes[rp]) && IsName(name)
    case Move(oldp, sname, newp, dname) =>
      && oldp < |inodes| && IsDir(inodes[oldp]) && IsName(sname)
      && newp < |inodes| && IsDir(inodes[newp]) && IsName(dname)
  }

  /** The name is in use before the first empty entry. */
  ghost predicate Noticed(d: Disk, i: nat, name: seq<Byte>) {
    exists x: nat :: Label(d, i, x) == name && forall y: nat | y <= x :: Target(d, i, y) != 0
  }

  /** What mv may put in place of what. */
  ghost predicate MayReplace(d: Disk, sip: nat, tip: nat) {
    if Dir(d, tip) then Dir(d, sip) && EmptyDirAt(d, tip)
    else sip < |d.inodes| && tip < |d.inodes| && d.inodes[sip].typ == T_FILE && d.inodes[tip].typ == T_FILE
  }

  /** Whether a command goes ahead; otherwise it changes nothing. */
  ghost predicate Accepted(d: Disk, c: Command)
    requires Sensible(d.inodes, c)
  {
    match c
    case Write(i, buf, off) => Writable(d.inodes[i], off, |buf|)
    case Truncate(_, size) => size <= MAXFILE * BSIZE
    case Create(rp, name, _) => !HasName(d, rp, name)
    case Link(dp, name, _) => !HasName(d, dp, name) && !Full(d, dp)
    case LinkInto(dp, name, _) => !Noticed(d, dp, name) && !Full(d, dp)
    case Unlink(rp, name) => exists e: nat :: Finds(d, rp, name, e) && !Dir(d, Target(d, rp, e))
    case RemoveDir(rp, name) =>
      name != DOT && name != DOTDOT && exists e: nat :: Finds(d, rp, name, e) && EmptyDirAt(d, Target(d, rp, e))
    case Move(oldp, sname, newp, dname) =>
      exists es: nat ::
        && Finds(d, oldp, sname, es)
        && forall et: nat | Finds(d, newp, dname, et) :: MayReplace(d, Target(d, oldp, es), Target(d, newp, et))
  }

  /** Whether too few blocks or inodes are free for it. */
  ghost predicate Short(d: Disk, c: Command)
    requires Sensible(d.inodes, c)
  {
    match c
    case Write(i, buf, off) =>
      FreeBlocks(d) + Footprint(d.inodes[i].size) < Footprint(Max(d.inodes[i].size, off + |buf|))
    case Truncate(i, size) => FreeBlocks(d) + Footprint(d.inodes[i].size) < Footprint(size)
    case Create(rp, _, typ) =>
      NoFreeInode(d.inodes) || (d.inodes[rp].size <= MAXFILE * BSIZE && FreeBlocks(d) < CreateCost(d, rp, typ))
    case Link(dp, _, _) => NoBlocks(d, dp)
    case LinkInto(dp, _, _) => NoBlocks(d, dp)
    case Move(_, _, newp, dname) => !HasName(d, newp, dname) && !Full(d, newp) && NoBlocks(d, newp)
    case _ => false
  }

  /** An entry in `dp` takes more blocks than are free. */
  ghost predicate NoBlocks(d: Disk, dp: nat)
    requires dp < |d.inodes|
  {
    d.inodes[dp].size <= MAXFILE * BSIZE && FreeBlocks(d) < EntryCost(d, dp)
  }

  // ----- what a command does

  ghost predicate Wrote(d: Disk, d': Disk, i: nat, off: nat, buf: seq<Byte>) {
    && FileChanged(d, d', i) && off <= d.inodes[i].size <= MAXFILE * BSIZE && d'.inodes[i].size <= MAXFILE * BSIZE
    && Content(d', i) == Overwritten(Content(d, i), off, buf)
  }

  ghost predicate Cut(d: Disk, d': Disk, i: nat, size: nat) {
    && FileChanged(d, d', i) && d.inodes[i].size <= MAXFILE * BSIZE && d'.inodes[i].size <= MAXFILE * BSIZE
    && Content(d', i) == Resized(Content(d, i), size)
  }

  ghost predicate MadeAt(d: Disk, d': Disk, rp: nat, name: seq<Byte>, typ: Ushort, ip: nat, at: nat) {
    FirstFree(d.inodes, ip) && Created(d, d', rp, name, typ, ip, at) && Tree(d', 0) && Frame(d, d', {rp, ip})
  }

  ghost predicate UnlinkedAt(d: Disk, d': Disk, rp: nat, name: seq<Byte>, e: nat, m: Disk) {
    Finds(d, rp, name, e) && UnlinkDone(d, d', rp, e, Target(d, rp, e), m)
  }

  ghost predicate RemovedAt(d: Disk, d': Disk, rp: nat, name: seq<Byte>, e: nat) {
    && Finds(d, rp, name, e) && EmptyDirAt(d, Target(d, rp, e)) && Removed(d, d', rp, e, Target(d, rp, e))
    && Tree(d', 0) && Rooted(d') && Frame(d, d', {rp, Target(d, rp, e)})
  }

  /** To a new name. */
  ghost predicate RenamedAt(d: Disk, d': Disk, oldp: nat, sname: seq<Byte>, newp: nat, dname: seq<Byte>, es: nat,
                            e: nat) {
    && Finds(d, oldp, sname, es) && Target(d, newp, e) == 0
    && Moved(d, d', oldp, es, newp, e, Target(d, oldp, es), dname) && Tree(d', 0) && Rooted(d')
    && Frame(d, d', {oldp, newp, Target(d, oldp, es)})
    && (!Dir(d, Target(d, oldp, es)) ==> Untouched(d, d', Target(d, oldp, es)))
  }

  /** Over what was there. */
  ghost predicate ReplacedAt(d: Disk, d': Disk, oldp: nat, sname: seq<Byte>, newp: nat, dname: seq<Byte>, es: nat,
                             et: nat, d1: Disk, m: Disk, e: nat) {
    && Finds(d, oldp, sname, es) && Finds(d, newp, dname, et) && UnlinkDone(d, d1, newp, et, Target(d, newp, et), m)
    && Target(d1, newp, e) == 0 && Moved(d1, d', oldp, es, newp, e, Target(d, oldp, es), dname)
    && Tree(d', 0) && Rooted(d') && Unique(d') && Frame(d, d', {oldp, newp, Target(d, oldp, es), Target(d, newp, et)})
    && (Connected(d') <==> !(Dir(d1, Target(d, oldp, es)) && Below(d1, newp, Target(d, oldp, es))))
  }

  /** Onto itself: the name is lost, and its inode if that was the last link. */
  ghost predicate SelfMoved(d: Disk, d': Disk, dp: nat, name: seq<Byte>, e: nat) {
    && Finds(d, dp, name, e) && !HasName(d', dp, name) && Frame(d, d', {dp, Target(d, dp, e)}) && Good(d')
    && Target(d, dp, e) < |d.inodes| == |d'.inodes|
    && (d.inodes[Target(d, dp, e)].nlink == 1 <==> d'.inodes[Target(d, dp, e)].typ == 0)
    && NamesKept(d, d', {(dp, name)}, if Dir(d, Target(d, dp, e)) then {Target(d, dp, e)} else {})
  }

  ghost predicate Effect(d: Disk, c: Command, d': Disk) {
    match c
    case Write(i, buf, off) => Wrote(d, d', i, off, buf)
    case Truncate(i, size) => Cut(d, d', i, size)
    case Create(rp, name, typ) => exists ip: nat, at: nat :: MadeAt(d, d', rp, name, typ, ip, at)
    case Link(dp, name, ip) => exists e: nat, m: Disk :: Linked(d, d', dp, name, ip, e, m)
    case LinkInto(dp, name, ip) => exists e: nat, m: Disk :: Linked(d, d', dp, name, ip, e, m)
    case Unlink(rp, name) => exists e: nat, m: Disk :: UnlinkedAt(d, d', rp, name, e, m)
    case RemoveDir(rp, name) => exists e: nat :: RemovedAt(d, d', rp, name, e)
    case Move(oldp, sname, newp, dname) =>
      if !HasName(d, newp, dname) then exists es: nat, e: nat :: RenamedAt(d, d', oldp, sname, newp, dname, es, e)
      else if oldp == newp && sname == dname then exists e: nat :: SelfMoved(d, d', oldp, sname, e)
      else exists es: nat, et: nat, d1: Disk, m: Disk, e: nat ::
             ReplacedAt(d, d', oldp, sname, newp, dname, es, et, d1, m, e)
  }

  /** A command was carried out, or refused without change. */
  ghost predicate Ran(d: Disk, c: Command, done: bool, d': Disk) {
    if done then Sensible(d.inodes, c) && Accepted(d, c) && Effect(d, c, d')
    else d' == d && (Sensible(d.inodes, c) ==> !Accepted(d, c))
  }

  // ----- which commands keep the image good

  /** A command that meets none of the cases in which the source goes wrong. */
  ghost predicate Safe(d: Disk, c: Command) {
    match c
    case Create(rp, _, typ) => typ == T_DIR ==> !Full(d, rp)
    case Link(_, _, ip) => ip < |d.inodes| ==> d.inodes[ip].nlink + 1 < USHORT
    case LinkInto(dp, name, ip) =>
      (ip < |d.inodes| ==> d.inodes[ip].nlink + 1 < USHORT) && (HasName(d, dp, name) ==> Noticed(d, dp, name))
    case Move(oldp, sname, newp, dname) =>
      && {sname, dname} !! {DOT, DOTDOT} && (Full(d, newp) ==> HasName(d, newp, dname))
      && forall e: nat | Finds(d, oldp, sname, e) ::
           Dir(d, Target(d, oldp, e)) ==> !Below(d, newp, Target(d, oldp, e))
    case _ => true
  }

  lemma OneFound(d: Disk, i: nat, name: seq<Byte>, e: nat)
    requires Finds(d, i, name, e)
    ensures HasName(d, i, name) && forall f: nat :: Finds(d, i, name, f) <==> f == e
  {
    hide Label;
  }

  /** Whatever a safe command does leaves a good image. */
  lemma EffectIsGood(d: Disk, c: Command, d': Disk)
    requires Good(d) && Safe(d, c) && Sensible(d.inodes, c) && Accepted(d, c) && Effect(d, c, d')
    ensures Good(d')
  {
    hide Tree, Rooted, Connected, Unique, IsName, Wrote, Cut, MadeAt, Linked, UnlinkedAt, RemovedAt, RenamedAt,
         ReplacedAt, Finds, HasName, Full, Below, Noticed, EmptyDirAt, Target;
    match c
    case Write(i, buf, off) => WroteIsGood(d, d', i, off, buf);
    case Truncate(i, size) => CutIsGood(d, d', i, size);
    case Create(rp, name, typ) =>
      var ip: nat, at: nat :| MadeAt(d, d', rp, name, typ, ip, at);
      MadeIsGood(d, d', rp, name, typ, ip, at);
    case Link(dp, name, ip) =>
      var e: nat, m: Disk :| Linked(d, d', dp, name, ip, e, m);
      UnusedIsNoDot(d, dp, name);
      LinkedIsGood(d, d', dp, name, ip, e, m);
    case LinkInto(dp, name, ip) =>
      var e: nat, m: Disk :| Linked(d, d', dp, name, ip, e, m);
      LinkedIsGood(d, d', dp, name, ip, e, m);
    case Unlink(rp, name) =>
      var e: nat, m: Disk :| UnlinkedAt(d, d', rp, name, e, m);
      UnlinkIsGood(d, d', rp, name, e, m);
    case RemoveDir(rp, name) =>
      var e: nat :| RemovedAt(d, d', rp, name, e);
      RemovalIsGood(d, d', rp, name, e);
    case Move(oldp, sname, newp, dname) =>
      MoveIsGood(d, d', oldp, sname, newp, dname);
  }

  lemma WroteIsGood(d: Disk, d': Disk, i: nat, off: nat, buf: seq<Byte>)
    requires Good(d) && Wrote(d, d', i, off, buf)
    ensures Good(d')
  {
    hide Tree, Rooted, Connected, Unique, FileChanged, Content;
    FileChangeKeeps(d, d', i);
  }

  lemma CutIsGood(d: Disk, d': Disk, i: nat, size: nat)
    requires Good(d) && Cut(d, d', i, size)
    ensures Good(d')
  {
    hide Tree, Rooted, Connected, Unique, FileChanged, Content;
    FileChangeKeeps(d, d', i);
  }

  lemma MadeIsGood(d: Disk, d': Disk, rp: nat, name: seq<Byte>, typ: Ushort, ip: nat, at: nat)
    requires Good(d) && Dir(d, rp) && IsName(name) && !HasName(d, rp, name) && (typ == T_DIR ==> !Full(d, rp))
    requires MadeAt(d, d', rp, name, typ, ip, at)
    ensures Good(d')
  {
    hide Tree, Rooted, Connected, Unique, IsName, HasName, Full, Created, DirOk, Content, NotNamed, Sound, DirsOk,
         Owned;
    TreeIsSound(d, 0);
    DirSize(d, rp);
    FreeName(d, rp, name);
    CreatedIsGood(d, d', rp, name, typ, ip, at);
  }

  lemma UnusedIsNoDot(d: Disk, i: nat, name: seq<Byte>)
    requires Rooted(d) && Dir(d, i) && !HasName(d, i, name)
    ensures name != DOT && name != DOTDOT
  {
    hide Rooted, Label;
    FreeLabel(d, i, name);
    DirFacts(d, i);
    DotsNamed(d, i, name);
  }

  /** A link that was added is behind no entry of its name, if that would have been noticed. */
  lemma LinkedIsGood(d: Disk, d': Disk, dp: nat, name: seq<Byte>, ip: nat, e: nat, m: Disk)
    requires Good(d) && Linked(d, d', dp, name, ip, e, m) && IsName(name) && name != DOT && name != DOTDOT
    requires !Dir(d, ip)
    requires ip < |d.inodes| && d.inodes[ip].typ != 0 && d.inodes[ip].nlink + 1 < USHORT
    requires HasName(d, dp, name) ==> Noticed(d, dp, name)
    ensures Good(d')
  {
    hide Tree, Rooted, Connected, Unique, IsName, HasName, Linked, Noticed, DirsOk, Sound, Owned, Encode, Content,
         EntryWritten;
    TreeIsSound(d, 0);
    LinkKeepsShape(d, d', dp, name, ip, e, m);
    LinkKeepsConnected(d, d', dp, name, ip, e, m);
    LinkUniqueIff(d, d', dp, name, ip, e, m);
    LinkedUnnoticed(d, d', dp, name, ip, e, m);
    LinkedTree(d, d', dp, name, ip, e, m);
  }

  lemma LinkedUnnoticed(d: Disk, d': Disk, dp: nat, name: seq<Byte>, ip: nat, e: nat, m: Disk)
    requires Linked(d, d', dp, name, ip, e, m)
    ensures !Noticed(d, dp, name)
  {
    hide Linked, Target, Label;
    LinkedWhere(d, d', dp, name, ip, e, m);
    if x: nat :| Label(d, dp, x) == name && forall y: nat | y <= x :: Target(d, dp, y) != 0 {
      var there := Target(d, dp, e);
    }
  }

  lemma LinkedTree(d: Disk, d': Disk, dp: nat, name: seq<Byte>, ip: nat, e: nat, m: Disk)
    requires Tree(d, 0) && Linked(d, d', dp, name, ip, e, m) && IsName(name) && name != DOT
    requires ip < |d.inodes| && d.inodes[ip].typ != 0 && d.inodes[ip].nlink + 1 < USHORT
    ensures Tree(d', 0)
  {
    hide Tree, EntryWritten, Encode, Content, Vacant, IsName;
    PutLinkEffect(d, m, dp, e, name, ip, 0);
  }

  lemma UnlinkIsGood(d: Disk, d': Disk, rp: nat, name: seq<Byte>, e: nat, m: Disk)
    requires Good(d) && Dir(d, rp) && IsName(name) && UnlinkedAt(d, d', rp, name, e, m)
    requires exists f: nat :: Finds(d, rp, name, f) && !Dir(d, Target(d, rp, f))
    ensures Good(d')
  {
    hide Tree, Rooted, Connected, Unique, IsName, Finds, UnlinkDone, Target, Owned;
    var f: nat :| Finds(d, rp, name, f) && !Dir(d, Target(d, rp, f));
    OneFound(d, rp, name, e);
    UnlinkedIsGood(d, d', rp, name, e, Target(d, rp, e), m);
  }

  lemma RemovalIsGood(d: Disk, d': Disk, rp: nat, name: seq<Byte>, e: nat)
    requires Good(d) && Dir(d, rp) && IsName(name) && name != DOT && name != DOTDOT && RemovedAt(d, d', rp, name, e)
    ensures Good(d')
  {
    hide Tree, Rooted, Connected, Unique, IsName, Finds, Removed, Target, Content, Bare, OnlyOwes, Orphans, DirOk,
         Sound, DirsOk, Owned, Label, Names;
    var x := Target(d, rp, e);
    TreeIsSound(d, 0);
    DirSize(d, x);
    EmptyIsRemovable(d, rp, name, e, x);
    NameLength(name);
    FindsLabel(d, rp, name, e);
    RemovalKeepsConnected(d, d', rp, e, x);
    RemovalKeepsUnique(d, d', rp, e, x);
  }

  lemma MoveIsGood(d: Disk, d': Disk, oldp: nat, sname: seq<Byte>, newp: nat, dname: seq<Byte>)
    requires Good(d) && Sensible(d.inodes, Move(oldp, sname, newp, dname)) && Safe(d, Move(oldp, sname, newp, dname))
    requires Accepted(d, Move(oldp, sname, newp, dname)) && Effect(d, Move(oldp, sname, newp, dname), d')
    ensures Good(d')
  {
    hide Tree, Rooted, Connected, Unique, IsName, RenamedAt, ReplacedAt, Finds, HasName, Full, Below, MayReplace,
         Target;
    if !HasName(d, newp, dname) {
      var es: nat, e: nat :| RenamedAt(d, d', oldp, sname, newp, dname, es, e);
      RenamedIsGood(d, d', oldp, sname, newp, dname, es, e);
    } else if oldp != newp || sname != dname {
      var es: nat, et: nat, d1: Disk, m: Disk, e: nat :|
        ReplacedAt(d, d', oldp, sname, newp, dname, es, et, d1, m, e);
      ReplacedIsGood(d, d', oldp, sname, newp, dname, es, et, d1, m, e);
    }
  }

  lemma RenamedIsGood(d: Disk, d': Disk, oldp: nat, sname: seq<Byte>, newp: nat, dname: seq<Byte>, es: nat, e: nat)
    requires Good(d) && Sensible(d.inodes, Move(oldp, sname, newp, dname)) && Safe(d, Move(oldp, sname, newp, dname))
    requires !HasName(d, newp, dname) && RenamedAt(d, d', oldp, sname, newp, dname, es, e)
    ensures Good(d')
  {
    hide Tree, Rooted, Connected, Unique, IsName, Finds, HasName, Full, Below, Moved, Target, Label, Dir;
    MoveStarts(d, oldp, sname, newp, dname, es);
    RenameConnectedIff(d, d', oldp, sname, newp, dname, Target(d, oldp, es), es, e);
    MoveKeepsUnique(d, d', oldp, sname, newp, dname, Target(d, oldp, es), es, e);
  }

  lemma MoveStarts(d: Disk, oldp: nat, sname: seq<Byte>, newp: nat, dname: seq<Byte>, es: nat)
    requires Good(d) && Sensible(d.inodes, Move(oldp, sname, newp, dname)) && Safe(d, Move(oldp, sname, newp, dname))
    requires !HasName(d, newp, dname) && Finds(d, oldp, sname, es)
    ensures Movable(d, oldp, sname, newp, dname, Target(d, oldp, es), es)
    ensures Dir(d, Target(d, oldp, es)) ==> !Below(d, newp, Target(d, oldp, es))
  {
    hide Tree, Rooted, Connected, Unique, IsName, Finds, Full, Below, Target, Label;
    FreeLabel(d, newp, dname);
  }

  lemma ReplacedIsGood(d: Disk, d': Disk, oldp: nat, sname: seq<Byte>, newp: nat, dname: seq<Byte>, es: nat, et: nat,
                       d1: Disk, m: Disk, e: nat)
    requires Good(d) && Sensible(d.inodes, Move(oldp, sname, newp, dname)) && Safe(d, Move(oldp, sname, newp, dname))
    requires Accepted(d, Move(oldp, sname, newp, dname)) && (oldp != newp || sname != dname)
    requires ReplacedAt(d, d', oldp, sname, newp, dname, es, et, d1, m, e)
    ensures Good(d')
  {
    hide Tree, Rooted, Connected, Unique, IsName, Finds, HasName, Full, Below, Moved, Target, Label, Dir, UnlinkDone,
         Accepted;
    ReplaceStarts(d, oldp, sname, newp, dname, es, et);
    ReplacedConnected(d, d1, oldp, sname, newp, dname, Target(d, oldp, es), Target(d, newp, et), es, et, m);
  }

  lemma ReplaceStarts(d: Disk, oldp: nat, sname: seq<Byte>, newp: nat, dname: seq<Byte>, es: nat, et: nat)
    requires Good(d) && Sensible(d.inodes, Move(oldp, sname, newp, dname)) && Safe(d, Move(oldp, sname, newp, dname))
    requires Accepted(d, Move(oldp, sname, newp, dname)) && (oldp != newp || sname != dname)
    requires Finds(d, oldp, sname, es) && Finds(d, newp, dname, et)
    ensures Replaceable(d, oldp, sname, newp, dname, Target(d, oldp, es), Target(d, newp, et), es, et)
    ensures Dir(d, Target(d, oldp, es)) ==> !Below(d, newp, Target(d, oldp, es))
  {
    hide Tree, Rooted, Connected, Unique, IsName, Full, Below, Target, Label, EmptyDirAt, HasName;
    var f: nat :| Finds(d, oldp, sname, f) &&
      forall g: nat | Finds(d, newp, dname, g) :: MayReplace(d, Target(d, oldp, f), Target(d, newp, g));
    OneFound(d, oldp, sname, es);
    OtherEntry(d, oldp, sname, es, newp, dname, et);
  }

  lemma OtherEntry(d: Disk, oldp: nat, sname: seq<Byte>, es: nat, newp: nat, dname: seq<Byte>, et: nat)
    requires Finds(d, oldp, sname, es) && Finds(d, newp, dname, et) && (oldp != newp || sname != dname)
    ensures oldp != newp || es != et
  {
  }

  lemma ReplacedConnected(d: Disk, d1: Disk, oldp: nat, sname: seq<Byte>, newp: nat, dname: seq<Byte>, sip: nat,
                          tip: nat, es: nat, et: nat, m: Disk)
    requires Replaceable(d, oldp, sname, newp, dname, sip, tip, es, et) && UnlinkDone(d, d1, newp, et, tip, m)
    requires Dir(d, sip) ==> !Below(d, newp, sip)
    ensures !(Dir(d1, sip) && Below(d1, newp, sip))
  {
    hide Tree, Rooted, Connected, Unique, IsName, UnlinkDone, Finds, Label, Target, Below, Dir, EmptyDirAt;
    TargetGone(d, d1, oldp, sname, newp, dname, sip, tip, es, et, m);
    if Dir(d, tip) {
      BelowBefore(d, d1, oldp, sname, newp, dname, sip, tip, es, et, m);
    }
  }

  // ----- the commands carried out

  /** The lookup of a name fails just when no entry has it. */
  lemma NamedIff(d: Disk, i: nat, name: seq<Byte>)
    requires Dir(d, i) && d.inodes[i].size <= MAXFILE * BSIZE && IsName(name)
    ensures NotNamed(Content(d, i), name) <==> !HasName(d, i, name)
  {
    hide Content, NotNamed, Label, IsName;
    NameLength(name);
    NotNamedMeans(d, i, name);
  }

  lemma NoticedIff(d: Disk, i: nat, name: seq<Byte>)
    requires Dir(d, i) && d.inodes[i].size <= MAXFILE * BSIZE && IsName(name)
    ensures Taken(Content(d, i), name) <==> Noticed(d, i, name)
    ensures Noticed(d, i, name) ==> HasName(d, i, name)
  {
    hide Content, EntryBytes, Cell, CName, DecodeInum, Target, Label, IsName;
    NameLength(name);
    forall e: nat
      ensures ENTRY * e + ENTRY <= |Content(d, i)| ==>
        Label(d, i, e) == Name(Content(d, i), e) && Target(d, i, e) == Inum(Content(d, i), e)
      ensures ENTRY * e + ENTRY > |Content(d, i)| ==> Label(d, i, e) == []
    {
      CellOfContent(d, i, e);
    }
    if Noticed(d, i, name) {
      var x: nat :| Label(d, i, x) == name && forall y: nat | y <= x :: Target(d, i, y) != 0;
      forall y: nat | y <= x ensures Inum(Content(d, i), y) != 0 {
        assert Target(d, i, y) != 0;
      }
    }
    if Taken(Content(d, i), name) {
      var c := Content(d, i);
      var x: nat :| ENTRY * x + ENTRY <= |c| && Name(c, x) == name && forall y: nat | y <= x :: Inum(c, y) != 0;
      forall y: nat | y <= x ensures Target(d, i, y) != 0 {
        assert Inum(c, y) != 0;
      }
      assert Label(d, i, x) == name;
    }
  }

  /** One command: what it does, when it refuses or the program ends, and that a safe one leaves a good image. */
  method Do(img: Image, c: Command) returns (r: Outcome<bool>)
    requires Good(img.Disk()) && (c.Move? ==> Safe(img.Disk(), c))
    modifies img
    ensures Owned(img.Disk())
    ensures r.Fatal? <==>
      Sensible(old(img.inodes), c) && Accepted(old(img.Disk()), c) && Short(old(img.Disk()), c)
    ensures r.Ok? ==> Ran(old(img.Disk()), c, r.value, img.Disk())
    ensures r.Ok? && Safe(old(img.Disk()), c) ==> Good(img.Disk())
  {
    hide Tree, Rooted, Connected, Unique, Sound, Owned, Safe, Accepted, Short, Effect;
    ghost var d := img.Disk();
    TreeIsSound(d, 0);
    if !Sensible(img.inodes, c) {
      return Ok(false);
    }
    match c {
      case Write(i, buf, off) => r := DoWrite(img, i, buf, off);
      case Truncate(i, size) => r := DoTruncate(img, i, size);
      case Create(rp, name, typ) => r := DoCreate(img, rp, name, typ);
      case Link(dp, name, ip) => r := DoLink(img, dp, name, ip);
      case LinkInto(dp, name, ip) => r := DoLinkInto(img, dp, name, ip);
      case Unlink(rp, name) => r := DoUnlink(img, rp, name);
      case RemoveDir(rp, name) => r := DoRemove(img, rp, name);
      case Move(oldp, sname, newp, dname) => r := DoMove(img, oldp, sname, newp, dname);
    }
    NeverShort(d, c);
    if r == Ok(true) && Safe(d, c) {
      EffectIsGood(d, c, img.Disk());
    }
  }

  lemma NeverShort(d: Disk, c: Command)
    requires Sensible(d.inodes, c)
    ensures c.Unlink? || c.RemoveDir? ==> !Short(d, c)
  {
  }

  method DoWrite(img: Image, i: nat, buf: seq<Byte>, off: nat) returns (r: Outcome<bool>)
    requires Good(img.Disk()) && Sensible(img.inodes, Write(i, buf, off))
    modifies img
    ensures Owned(img.Disk())
    ensures r.Fatal? <==>
      Accepted(old(img.Disk()), Write(i, buf, off)) && Short(old(img.Disk()), Write(i, buf, off))
    ensures r.Ok? ==> Ran(old(img.Disk()), Write(i, buf, off), r.value, img.Disk())
  {
    hide Tree, Rooted, Connected, Unique, Sound, Owned, OthersUntouched, Content, Overwritten, Writable, FreeBlocks;
    ghost var d := img.Disk();
    TreeIsSound(d, 0);
    WritableOffset(d.inodes[i], off, |buf|);
    var w := img.IWrite(i, buf, off);
    r := if w.Fatal? then Fatal else Ok(w.value == |buf|);
  }

  lemma WritableOffset(n: Dinode, off: nat, len: nat)
    ensures Writable(n, off, len) ==> off <= n.size
  {
  }

  method DoTruncate(img: Image, i: nat, size: nat) returns (r: Outcome<bool>)
    requires Good(img.Disk()) && Sensible(img.inodes, Truncate(i, size))
    modifies img
    ensures Owned(img.Disk())
    ensures r.Fatal? <==> Accepted(old(img.Disk()), Truncate(i, size)) && Short(old(img.Disk()), Truncate(i, size))
    ensures r.Ok? ==> Ran(old(img.Disk()), Truncate(i, size), r.value, img.Disk())
  {
    hide Tree, Rooted, Connected, Unique, Sound, Owned, OthersUntouched, Content, Resized, FreeBlocks;
    ghost var d := img.Disk();
    TreeIsSound(d, 0);
    var w := img.ITruncate(i, size);
    r := if w.Fatal? then Fatal else Ok(w.value == 0);
  }

  method DoCreate(img: Image, rp: nat, name: seq<Byte>, typ: Ushort) returns (r: Outcome<bool>)
    requires Good(img.Disk()) && Sensible(img.inodes, Create(rp, name, typ))
    modifies img
    ensures Owned(img.Disk())
    ensures r.Fatal? <==>
      Accepted(old(img.Disk()), Create(rp, name, typ)) && Short(old(img.Disk()), Create(rp, name, typ))
    ensures r.Ok? ==> Ran(old(img.Disk()), Create(rp, name, typ), r.value, img.Disk())
  {
    hide Tree, Rooted, Connected, Unique, Sound, Owned, Frame, DirsOk, DirOk, Content, NotNamed, Created, FreeBlocks,
         CreateCost, IsName, HasName, FirstFree, NoFreeInode;
    ghost var d := img.Disk();
    TreeIsSound(d, 0);
    DirSize(d, rp);
    NamedIff(d, rp, name);
    var w;
    ghost var ip, at;
    w, ip, at := ICreat(img, rp, name, typ);
    if w.Ok? && w.value.Some? {
      assert MadeAt(d, img.Disk(), rp, name, typ, ip, at);
    }
    r := if w.Fatal? then Fatal else Ok(w.value.Some?);
  }

  /** The ln command to a new name: it looks the name up first. */
  method DoLink(img: Image, dp: nat, name: seq<Byte>, ip: nat) returns (r: Outcome<bool>)
    requires Good(img.Disk()) && Sensible(img.inodes, Link(dp, name, ip))
    modifies img
    ensures Owned(img.Disk())
    ensures r.Fatal? <==> Accepted(old(img.Disk()), Link(dp, name, ip)) && Short(old(img.Disk()), Link(dp, name, ip))
    ensures r.Ok? ==> Ran(old(img.Disk()), Link(dp, name, ip), r.value, img.Disk())
  {
    hide Tree, Rooted, Connected, Unique, Sound, Owned, Frame, Full, DirsOk, DirOk, Content, Taken, Linked, EntryCost,
         IsName, NotNamed, FirstNamed, EntryBytes, CName, HasName, Noticed, FreeBlocks;
    ghost var d := img.Disk();
    TreeIsSound(d, 0);
    DirSize(d, dp);
    NamedIff(d, dp, name);
    var found, inum, off := DLookup(img, dp, name);
    if found {
      FoundMeans(d, dp, name, off / ENTRY);
      return Ok(false);
    }
    NotInUse(d, dp, name);
    NoticedIff(d, dp, name);
    var w;
    ghost var e, mid;
    w, e, mid := DAddEnt(img, dp, name, ip, 0);
    r := if w.Fatal? then Fatal else Ok(w == Ok(0));
  }

  /** The ln command to a directory: the name of the file is added there without a lookup. */
  method DoLinkInto(img: Image, dp: nat, name: seq<Byte>, ip: nat) returns (r: Outcome<bool>)
    requires Good(img.Disk()) && Sensible(img.inodes, LinkInto(dp, name, ip))
    modifies img
    ensures Owned(img.Disk())
    ensures r.Fatal? <==>
      Accepted(old(img.Disk()), LinkInto(dp, name, ip)) && Short(old(img.Disk()), LinkInto(dp, name, ip))
    ensures r.Ok? ==> Ran(old(img.Disk()), LinkInto(dp, name, ip), r.value, img.Disk())
    ensures r == Ok(true) ==> (Unique(img.Disk()) <==> !HasName(old(img.Disk()), dp, name))
    ensures r == Ok(true) ==>
      (Good(img.Disk()) <==> !HasName(old(img.Disk()), dp, name) && old(img.inodes)[ip].nlink + 1 < USHORT)
  {
    hide Tree, Rooted, Connected, Unique, Sound, Owned, Frame, Full, DirsOk, DirOk, Content, Taken, Linked, EntryCost,
         IsName, HasName, Noticed, FreeBlocks;
    ghost var d := img.Disk();
    TreeIsSound(d, 0);
    DirSize(d, dp);
    NoticedIff(d, dp, name);
    var w;
    ghost var e, mid;
    w, e, mid := DAddEnt(img, dp, name, ip, 0);
    if w == Ok(0) {
      LinkUniqueIff(d, img.Disk(), dp, name, ip, e, mid);
      if !HasName(d, dp, name) && d.inodes[ip].nlink + 1 < USHORT {
        LinkedIsGood(d, img.Disk(), dp, name, ip, e, mid);
      }
    }
    r := if w.Fatal? then Fatal else Ok(w == Ok(0));
  }

  /** The rm command looks the name up first, and leaves directories to rmdir. */
  method DoUnlink(img: Image, rp: nat, name: seq<Byte>) returns (r: Outcome<bool>)
    requires Good(img.Disk()) && Sensible(img.inodes, Unlink(rp, name))
    modifies img
    ensures Owned(img.Disk()) && r.Ok? && Ran(old(img.Disk()), Unlink(rp, name), r.value, img.Disk())
  {
    hide Tree, Rooted, Connected, Unique, Sound, Owned, DirsOk, DirOk, Content, NotNamed, FirstNamed, UnlinkDone,
         IsName, EntryBytes, CName, Finds, Label, Target, HasName;
    ghost var d := img.Disk();
    TreeIsSound(d, 0);
    DirSize(d, rp);
    NamedIff(d, rp, name);
    var found, inum, off := DLookup(img, rp, name);
    if !found {
      NoneFound(d, rp, name);
      return Ok(false);
    }
    FoundMeans(d, rp, name, off / ENTRY);
    OneFound(d, rp, name, off / ENTRY);
    if img.inodes[inum].typ == T_DIR {
      return Ok(false);
    }
    if name == DOT || name == DOTDOT {
      DotsAreDirs(d, rp, name, off / ENTRY);
      assert false;
    }
    var u;
    ghost var ip, e, d1;
    u, ip, e, d1 := IUnlink(img, rp, name);
    FoundMeans(d, rp, name, e);
    assert UnlinkedAt(d, img.Disk(), rp, name, e, d1);
    UnlinkedIsOwned(d, img.Disk(), rp, e, ip, d1);
    r := Ok(true);
  }

  lemma NoneFound(d: Disk, i: nat, name: seq<Byte>)
    requires !HasName(d, i, name)
    ensures forall e: nat :: !Finds(d, i, name, e)
  {
    hide Label;
  }

  lemma DotsAreDirs(d: Disk, i: nat, name: seq<Byte>, e: nat)
    requires Rooted(d) && Dir(d, i) && Finds(d, i, name, e) && (name == DOT || name == DOTDOT)
    ensures Dir(d, Target(d, i, e))
  {
    hide Rooted, Label, Target;
    DirFacts(d, i);
    OneFound(d, i, name, e);
    assert Finds(d, i, name, if name == DOT then 0 else 1);
  }

  method DoRemove(img: Image, rp: nat, name: seq<Byte>) returns (r: Outcome<bool>)
    requires Good(img.Disk()) && Sensible(img.inodes, RemoveDir(rp, name))
    modifies img
    ensures Owned(img.Disk()) && r.Ok? && Ran(old(img.Disk()), RemoveDir(rp, name), r.value, img.Disk())
  {
    hide Tree, Rooted, Connected, Unique, Sound, Owned, DirsOk, DirOk, Content, FirstNamed, IsName, Refused, Removed,
         Frame, Accepted, Finds, Target, EmptyDirAt;
    ghost var d := img.Disk();
    TreeIsSound(d, 0);
    DirSize(d, rp);
    RemoveAccepted(d, rp, name);
    var u;
    ghost var x, e;
    u, x, e := RmDir(img, rp, name);
    TreeIsSound(img.Disk(), 0);
    if u == 0 {
      FoundMeans(d, rp, name, e);
      RemoveEmpty(d, rp, name, e);
      assert RemovedAt(d, img.Disk(), rp, name, e);
    }
    r := Ok(u == 0);
  }

  lemma RemoveAccepted(d: Disk, rp: nat, name: seq<Byte>)
    requires Tree(d, 0) && Sensible(d.inodes, RemoveDir(rp, name)) && DirOk(d, rp)
    ensures Accepted(d, RemoveDir(rp, name)) <==> !Refused(d, rp, name)
  {
    hide Tree, DirsOk, DirOk, Content, NotNamed, FirstNamed, IsName, Finds, Target, EmptyDirAt, HasName, Sound, Owned;
    TreeIsSound(d, 0);
    DirSize(d, rp);
    NamedIff(d, rp, name);
    if e: nat :| FirstNamed(Content(d, rp), name, e) {
      FoundMeans(d, rp, name, e);
      OneFound(d, rp, name, e);
    } else {
      NoneFirst(d, rp, name);
      FirstExists(Content(d, rp), name);
    }
  }

  /** A name that is there is somewhere first. */
  lemma FirstExists(c: seq<Byte>, name: seq<Byte>)
    ensures !NotNamed(c, name) ==> exists e: nat :: FirstNamed(c, name, e)
  {
    hide Name;
    if e: nat :| ENTRY * e + ENTRY <= |c| && Name(c, e) == name {
      FirstUpTo(c, name, e);
    }
  }

  lemma {:induction false} FirstUpTo(c: seq<Byte>, name: seq<Byte>, e: nat)
    requires ENTRY * e + ENTRY <= |c| && Name(c, e) == name
    ensures exists f: nat :: FirstNamed(c, name, f)
  {
    hide Name;
    if x: nat :| x < e && Name(c, x) == name {
      FirstUpTo(c, name, x);
    } else {
      assert FirstNamed(c, name, e);
    }
  }

  lemma NoneFirst(d: Disk, i: nat, name: seq<Byte>)
    requires Tree(d, 0) && Dir(d, i) && d.inodes[i].size <= MAXFILE * BSIZE && IsName(name)
    requires forall e: nat :: !FirstNamed(Content(d, i), name, e)
    ensures forall e: nat :: !Finds(d, i, name, e)
  {
    hide Tree, Content, FirstNamed, IsName, Finds;
    forall e: nat ensures !Finds(d, i, name, e) {
      if Finds(d, i, name, e) {
        StillFound(d, i, name, e);
      }
    }
  }

  lemma RemoveEmpty(d: Disk, rp: nat, name: seq<Byte>, e: nat)
    requires Sensible(d.inodes, RemoveDir(rp, name)) && Accepted(d, RemoveDir(rp, name)) && Finds(d, rp, name, e)
    ensures EmptyDirAt(d, Target(d, rp, e))
  {
    hide Finds, Target, EmptyDirAt, IsName;
    OneFound(d, rp, name, e);
  }

  /** The mv command: to a new name, over a file, over an empty directory, or onto itself. */
  method DoMove(img: Image, oldp: nat, sname: seq<Byte>, newp: nat, dname: seq<Byte>) returns (r: Outcome<bool>)
    requires Good(img.Disk()) && Sensible(img.inodes, Move(oldp, sname, newp, dname))
    requires Safe(img.Disk(), Move(oldp, sname, newp, dname))
    modifies img
    ensures Owned(img.Disk())
    ensures r.Fatal? <==> Accepted(old(img.Disk()), Move(oldp, sname, newp, dname))
                          && Short(old(img.Disk()), Move(oldp, sname, newp, dname))
    ensures r.Ok? ==> Ran(old(img.Disk()), Move(oldp, sname, newp, dname), r.value, img.Disk())
  {
    hide Tree, Rooted, Connected, Unique, Sound, Owned, DirsOk, DirOk, Content, NotNamed, FirstNamed, IsName,
         EntryBytes, CName, Finds, Label, Target, Full, Below, HasName, Bare, Safe, Replaceable, Effect, FreeBlocks,
         EntryCost;
    ghost var d := img.Disk();
    TreeIsSound(d, 0);
    DirSize(d, oldp);
    DirSize(d, newp);
    NamedIff(d, oldp, sname);
    NamedIff(d, newp, dname);
    var found, inum, off := DLookup(img, oldp, sname);
    if !found {
      NoneFound(d, oldp, sname);
      return Ok(false);
    }
    FoundMeans(d, oldp, sname, off / ENTRY);
    OneFound(d, oldp, sname, off / ENTRY);
    var taken, target, toff := DLookup(img, newp, dname);
    if !taken {
      NoneFound(d, newp, dname);
      r := MoveToNew(img, oldp, sname, newp, dname, inum, off / ENTRY);
      return;
    }
    FoundMeans(d, newp, dname, toff / ENTRY);
    OneFound(d, newp, dname, toff / ENTRY);
    var may := CheckReplace(img, inum, target);
    if !may {
      return Ok(false);
    }
    MoveOver(img, oldp, sname, newp, dname, inum, target, off / ENTRY, toff / ENTRY);
    r := Ok(true);
  }

  method CheckReplace(img: Image, sip: nat, tip: nat) returns (b: bool)
    requires Good(img.Disk()) && sip < |img.inodes| && tip < |img.inodes|
    modifies img
    ensures img.Disk() == old(img.Disk()) && b == MayReplace(img.Disk(), sip, tip)
  {
    hide Tree, Rooted, Connected, Unique, Sound, DirsOk, DirOk, Content, Bare;
    ghost var d := img.Disk();
    TreeIsSound(d, 0);
    if img.inodes[tip].typ == T_DIR {
      if img.inodes[sip].typ != T_DIR {
        return false;
      }
      DirSize(d, tip);
      b := EmptyDir(img, tip);
    } else {
      b := img.inodes[tip].typ == T_FILE && img.inodes[sip].typ == T_FILE;
    }
  }

  method MoveToNew(img: Image, oldp: nat, sname: seq<Byte>, newp: nat, dname: seq<Byte>, sip: nat, ghost es: nat)
    returns (r: Outcome<bool>)
    requires Good(img.Disk()) && Sensible(img.inodes, Move(oldp, sname, newp, dname))
    requires Safe(img.Disk(), Move(oldp, sname, newp, dname)) && !HasName(img.Disk(), newp, dname)
    requires Finds(img.Disk(), oldp, sname, es) && Target(img.Disk(), oldp, es) == sip
    modifies img
    ensures Owned(img.Disk()) && (r.Fatal? <==> Short(old(img.Disk()), Move(oldp, sname, newp, dname)))
    ensures r.Ok? ==> r.value && Effect(old(img.Disk()), Move(oldp, sname, newp, dname), img.Disk())
  {
    hide Tree, Rooted, Connected, Unique, Owned, IsName, Finds, Label, Target, Full, Below, HasName, Moved, Grown,
         Frame, Untouched, EntryCost, FreeBlocks, Lost, LostCounts, Movable;
    ghost var d := img.Disk();
    MoveStarts(d, oldp, sname, newp, dname, es);
    var w;
    ghost var e;
    w, e := Rename(img, oldp, sname, newp, dname, sip, es);
    if w.Ok? {
      assert RenamedAt(d, img.Disk(), oldp, sname, newp, dname, es, e);
    }
    r := if w.Fatal? then Fatal else Ok(true);
  }

  method MoveOver(img: Image, oldp: nat, sname: seq<Byte>, newp: nat, dname: seq<Byte>, sip: nat, ghost tip: nat,
                  ghost es: nat, ghost et: nat)
    requires Good(img.Disk()) && Sensible(img.inodes, Move(oldp, sname, newp, dname))
    requires Safe(img.Disk(), Move(oldp, sname, newp, dname)) && Accepted(img.Disk(), Move(oldp, sname, newp, dname))
    requires Finds(img.Disk(), oldp, sname, es) && Target(img.Disk(), oldp, es) == sip
    requires Finds(img.Disk(), newp, dname, et) && Target(img.Disk(), newp, et) == tip
    requires MayReplace(img.Disk(), sip, tip)
    modifies img
    ensures Owned(img.Disk()) && Effect(old(img.Disk()), Move(oldp, sname, newp, dname), img.Disk())
  {
    hide Tree, Rooted, Connected, Unique, Owned, IsName, Finds, Label, Target, Full, Below, HasName, Moved, Frame,
         UnlinkDone, Replaceable, EmptyDirAt, Accepted;
    ghost var d := img.Disk();
    OneFound(d, oldp, sname, es);
    OneFound(d, newp, dname, et);
    if oldp == newp && sname == dname {
      var w := MoveOntoItself(img, oldp, sname, sip, es);
      FrameLength(d, img.Disk(), {oldp, sip});
      assert SelfMoved(d, img.Disk(), oldp, sname, es);
      TreeIsSound(img.Disk(), 0);
      return;
    }
    ReplaceStarts(d, oldp, sname, newp, dname, es, et);
    var w;
    ghost var d1, m, e;
    w, d1, m, e := Replace(img, oldp, sname, newp, dname, sip, tip, es, et);
    assert ReplacedAt(d, img.Disk(), oldp, sname, newp, dname, es, et, d1, m, e);
  }

  /** After mv, the new name leads to what the old one named, exactly if the two are not the same name. */
  lemma MoveLandsIff(d: Disk, d': Disk, oldp: nat, sname: seq<Byte>, newp: nat, dname: seq<Byte>, es: nat)
    requires Good(d) && Sensible(d.inodes, Move(oldp, sname, newp, dname)) && Safe(d, Move(oldp, sname, newp, dname))
    requires Accepted(d, Move(oldp, sname, newp, dname)) && Effect(d, Move(oldp, sname, newp, dname), d')
    requires Finds(d, oldp, sname, es)
    ensures Leads(d', newp, dname, Target(d, oldp, es)) <==> oldp != newp || sname != dname
  {
    hide Tree, Rooted, Connected, Unique, IsName, RenamedAt, ReplacedAt, Finds, HasName, Full, Below, MayReplace,
         Target, Safe, Accepted;
    OneFound(d, oldp, sname, es);
    if !HasName(d, newp, dname) {
      var f: nat, e: nat :| RenamedAt(d, d', oldp, sname, newp, dname, f, e);
      RenamedLands(d, d', oldp, sname, newp, dname, f, e);
    } else if oldp == newp && sname == dname {
      NoLead(d', newp, dname);
    } else {
      var f: nat, et: nat, d1: Disk, m: Disk, e: nat :|
        ReplacedAt(d, d', oldp, sname, newp, dname, f, et, d1, m, e);
      ReplacedLands(d, d', oldp, sname, newp, dname, f, et, d1, m, e);
    }
  }

  lemma RenamedLands(d: Disk, d': Disk, oldp: nat, sname: seq<Byte>, newp: nat, dname: seq<Byte>, es: nat, e: nat)
    requires Good(d) && Sensible(d.inodes, Move(oldp, sname, newp, dname)) && Safe(d, Move(oldp, sname, newp, dname))
    requires !HasName(d, newp, dname) && RenamedAt(d, d', oldp, sname, newp, dname, es, e)
    ensures Finds(d, oldp, sname, es) && Leads(d', newp, dname, Target(d, oldp, es))
  {
    hide Tree, Rooted, Finds, IsName, Moved, Target, Label, Safe, Full, HasName, Movable, Leads;
    MoveStarts(d, oldp, sname, newp, dname, es);
    MovedLands(d, d', oldp, sname, es, newp, e, Target(d, oldp, es), dname);
  }

  lemma ReplacedLands(d: Disk, d': Disk, oldp: nat, sname: seq<Byte>, newp: nat, dname: seq<Byte>, es: nat, et: nat,
                      d1: Disk, m: Disk, e: nat)
    requires Good(d) && Sensible(d.inodes, Move(oldp, sname, newp, dname)) && Safe(d, Move(oldp, sname, newp, dname))
    requires Accepted(d, Move(oldp, sname, newp, dname)) && (oldp != newp || sname != dname)
    requires ReplacedAt(d, d', oldp, sname, newp, dname, es, et, d1, m, e)
    ensures Finds(d, oldp, sname, es) && Leads(d', newp, dname, Target(d, oldp, es))
  {
    hide Tree, Rooted, Connected, Unique, IsName, Finds, HasName, Full, Below, Moved, Target, Label, UnlinkDone,
         Accepted, Safe, Replaceable, Movable, Leads;
    ReplaceStarts(d, oldp, sname, newp, dname, es, et);
    var sip, tip := Target(d, oldp, es), Target(d, newp, et);
    SourceMovable(d, d1, oldp, sname, newp, dname, sip, tip, es, et, m);
    MovedLands(d1, d', oldp, sname, es, newp, e, sip, dname);
  }

  lemma MovedLands(d: Disk, d': Disk, oldp: nat, sname: seq<Byte>, es: nat, newp: nat, e: nat, sip: nat,
                   dname: seq<Byte>)
    requires Movable(d, oldp, sname, newp, dname, sip, es) && Target(d, newp, e) == 0
    requires Moved(d, d', oldp, es, newp, e, sip, dname)
    ensures Leads(d', newp, dname, sip)
  {
    hide Tree, Rooted, IsName, Cell, DecodeInum, DecodeName, Encode, Sound, DirsOk, Dir;
    TreeIsSound(d, 0);
    RootFacts(d);
    SecondPlace(d, newp, e);
    NameLength(sname);
    CellOk(d, oldp, es);
    MovedFacts(d, d', oldp, es, newp, e, sip, dname);
    EncodeName(sip, dname);
    assert Label(d', newp, e) == dname && Target(d', newp, e) == sip;
  }

  // ----- sessions

  /** Each image comes from the one before by a command, carried out or refused. */
  ghost predicate Session(states: seq<Disk>, cs: seq<Command>) {
    |states| == |cs| + 1 && forall k: nat | k < |cs| :: RanSomehow(states[k], cs[k], states[k + 1])
  }

  ghost predicate RanSomehow(d: Disk, c: Command, d': Disk) {
    Ran(d, c, true, d') || Ran(d, c, false, d')
  }

  /** Every image of a session of safe commands is good, if the first one is. */
  lemma {:induction false} SessionStaysGood(states: seq<Disk>, cs: seq<Command>, n: nat)
    requires Session(states, cs) && Good(states[0]) && n <= |cs|
    requires forall k: nat | k < n :: Safe(states[k], cs[k])
    ensures Good(states[n])
  {
    hide Good, Safe, Accepted, Effect, Sensible;
    if n > 0 {
      SessionStaysGood(states, cs, n - 1);
      assert RanSomehow(states[n - 1], cs[n - 1], states[n]);
      if !Ran(states[n - 1], cs[n - 1], false, states[n]) {
        EffectIsGood(states[n - 1], cs[n - 1], states[n]);
      }
    }
  }

  /** Whatever the commands before it do, every command of the session is safe. */
  ghost predicate SafeRun(d: Disk, cs: seq<Command>)
    decreases |cs|
  {
    cs == [] || (Safe(d, cs[0]) && forall d': Disk | RanSomehow(d, cs[0], d') :: SafeRun(d', cs[1..]))
  }

  /** The commands carried out one after the other, until the program ends. */
  method RunAll(img: Image, cs: seq<Command>) returns (r: Outcome<bool>, ghost states: seq<Disk>)
    requires Good(img.Disk()) && SafeRun(img.Disk(), cs)
    modifies img
    ensures Owned(img.Disk())
    ensures r.Ok? ==> Session(states, cs) && states[0] == old(img.Disk()) && states[|cs|] == img.Disk()
    ensures r.Ok? ==> Good(img.Disk()) && forall k: nat | k < |cs| :: Safe(states[k], cs[k])
  {
    hide Good, Safe, Accepted, Short, Effect, Sensible, Owned;
    states := [img.Disk()];
    GoodIsOwned(img.Disk());
    for n := 0 to |cs|
      invariant Good(img.Disk()) && Owned(img.Disk()) && SafeRun(img.Disk(), cs[n..])
      invariant |states| == n + 1 && states[0] == old(img.Disk()) && states[n] == img.Disk()
      invariant forall k: nat | k < n :: RanSomehow(states[k], cs[k], states[k + 1]) && Safe(states[k], cs[k])
    {
      ghost var d := img.Disk();
      var w := Do(img, cs[n]);
      if w.Fatal? {
        return Fatal, states;
      }
      assert cs[n..][1..] == cs[n + 1..];
      assert RanSomehow(d, cs[n], img.Disk());
      states := states + [img.Disk()];
    }
    r := Ok(true);
  }

  lemma GoodIsOwned(d: Disk)
    requires Good(d)
    ensures Owned(d)
  {
    hide Tree, Rooted, Connected, Unique, Sound, Owned;
    TreeIsSound(d, 0);
  }
}
