/** Which directories are reached from the root, and when making, removing and renaming keep it so. */
module FsReach {
  import opened FsDisk
  import opened FsLinks
  import opened FsDir
  import opened FsUnlink
  import opened FsTree
  import opened FsCommands

  /** `n` steps up from `x`. */
  ghost function Up(d: Disk, x: nat, n: nat): nat
    decreases n
  {
    if n == 0 then x else Up(d, Parent(d, x), n - 1)
  }

  ghost predicate Reached(d: Disk, x: nat) {
    exists n: nat :: Up(d, x, n) == ROOT
  }

  /** Every directory is below the root. */
  ghost predicate Connected(d: Disk) {
    forall x: nat | Dir(d, x) :: Reached(d, x)
  }

  /** `x` is `y`, or lies below it. */
  ghost predicate Below(d: Disk, x: nat, y: nat) {
    exists n: nat :: Up(d, x, n) == y
  }

  lemma {:induction false} UpSplit(d: Disk, x: nat, a: nat, b: nat)
    ensures Up(d, x, a + b) == Up(d, Up(d, x, a), b)
    decreases a
  {
    hide Parent;
    if a > 0 {
      UpSplit(d, Parent(d, x), a - 1, b);
    }
  }

  lemma {:induction false} RootStays(d: Disk, n: nat)
    requires Parent(d, ROOT) == ROOT
    ensures Up(d, ROOT, n) == ROOT
  {
    hide Parent;
    if n > 0 {
      RootStays(d, n - 1);
    }
  }

  lemma {:induction false} UpIsDir(d: Disk, x: nat, n: nat)
    requires Rooted(d) && Dir(d, x)
    ensures Dir(d, Up(d, x, n))
    decreases n
  {
    hide Rooted, Dir, Parent, Dotted;
    if n > 0 {
      DirFacts(d, x);
      ParentIsDir(d, x);
      UpIsDir(d, Parent(d, x), n - 1);
    }
  }

  /** As long as the way up does not meet `s`, it is the same in both images. */
  lemma {:induction false} UpSame(d: Disk, d': Disk, x: nat, n: nat, s: nat)
    requires Rooted(d) && Dir(d, x) && (forall y: nat | Dir(d, y) && y != s :: Parent(d', y) == Parent(d, y))
    requires forall k: nat | k < n :: Up(d, x, k) != s
    ensures Up(d', x, n) == Up(d, x, n)
    decreases n
  {
    hide Rooted, Dir, Parent, Dotted;
    if n > 0 {
      assert Up(d, x, 0) != s;
      DirFacts(d, x);
      ParentIsDir(d, x);
      forall k: nat | k < n - 1 ensures Up(d, Parent(d, x), k) != s {
        assert Up(d, x, k + 1) != s;
      }
      UpSame(d, d', Parent(d, x), n - 1, s);
    }
  }

  /** From a directory on a cycle the root is never reached. */
  lemma {:induction false} NeverRoot(d: Disk, x: nat, p: nat, m: nat)
    requires p >= 1 && Up(d, x, p) == x && x != ROOT && Parent(d, ROOT) == ROOT
    ensures Up(d, x, m) != ROOT
    decreases m
  {
    hide Parent, Up;
    if m <= p {
      UpSplit(d, x, m, p - m);
      RootStays(d, p - m);
    } else {
      UpSplit(d, x, p, m - p);
      NeverRoot(d, x, p, m - p);
    }
  }

  ghost function Least(d: Disk, x: nat, s: nat, n: nat): (k: nat)
    requires Up(d, x, n) == s
    ensures k <= n && Up(d, x, k) == s && forall j: nat | j < k :: Up(d, x, j) != s
    decreases n
  {
    if exists j: nat :: j < n && Up(d, x, j) == s then
      var j: nat :| j < n && Up(d, x, j) == s;
      Least(d, x, s, j)
    else n
  }

  /** `s` was given the parent `p`, and no other directory a new one. */
  ghost predicate Rehung(d: Disk, d': Disk, s: nat, p: nat) {
    && Rooted(d) && Rooted(d') && Dir(d, s) && Dir(d, p) && s != ROOT && Parent(d', s) == p
    && (forall y: nat :: Dir(d', y) <==> Dir(d, y))
    && forall y: nat | Dir(d, y) && y != s :: Parent(d', y) == Parent(d, y)
  }

  lemma CycleCutsOff(d: Disk, d': Disk, s: nat, p: nat)
    requires Rehung(d, d', s, p) && Below(d, p, s)
    ensures !Reached(d', s)
  {
    hide Rooted, Dir, Parent, Up;
    var n: nat :| Up(d, p, n) == s;
    var k := Least(d, p, s, n);
    UpSame(d, d', p, k, s);
    UpOne(d', s, k);
    RootFacts(d');
    forall m: nat ensures Up(d', s, m) != ROOT {
      NeverRoot(d', s, k + 1, m);
    }
  }

  lemma UpOne(d: Disk, x: nat, n: nat)
    ensures Up(d, x, n + 1) == Up(d, Parent(d, x), n)
  {
    hide Parent;
  }

  lemma {:induction false} ReachedAgain(d: Disk, d': Disk, s: nat, p: nat, x: nat, n: nat)
    requires Rehung(d, d', s, p) && !Below(d, p, s) && Reached(d, p) && Dir(d, x) && Up(d, x, n) == ROOT
    ensures Reached(d', x)
    decreases n
  {
    hide Rooted, Dir, Parent, Dotted;
    if x == s {
      var m: nat :| Up(d, p, m) == ROOT;
      UpSame(d, d', p, m, s);
      UpOne(d', s, m);
    } else if n == 0 {
      assert Up(d', x, 0) == ROOT;
    } else {
      DirFacts(d, x);
      ParentIsDir(d, x);
      ReachedAgain(d, d', s, p, Parent(d, x), n - 1);
      var m: nat :| Up(d', Parent(d, x), m) == ROOT;
      UpOne(d', x, m);
    }
  }

  /** Giving a directory a new parent keeps all directories below the root exactly if the parent is not below it. */
  lemma RehungConnectedIff(d: Disk, d': Disk, s: nat, p: nat)
    requires Rehung(d, d', s, p) && Connected(d)
    ensures Connected(d') <==> !Below(d, p, s)
  {
    hide Rooted, Dir, Parent, Up;
    if Below(d, p, s) {
      CycleCutsOff(d, d', s, p);
    } else {
      forall x: nat | Dir(d', x) ensures Reached(d', x) {
        var n: nat :| Up(d, x, n) == ROOT;
        ReachedAgain(d, d', s, p, x, n);
      }
    }
  }

  /** The way up meets directories only. */
  lemma AwayFrom(d: Disk, y: nat, n: nat, s: nat)
    requires Rooted(d) && Dir(d, y) && !Dir(d, s)
    ensures forall k: nat | k < n :: Up(d, y, k) != s
  {
    hide Rooted, Dir, Up;
    forall k: nat | k < n ensures Up(d, y, k) != s {
      UpIsDir(d, y, k);
    }
  }

  /** The same parents, so the same ways up; `s` is no directory, or new. */
  lemma SameParentsConnected(d: Disk, d': Disk, s: nat)
    requires Rooted(d) && Connected(d) && !Dir(d, s)
    requires forall y: nat | Dir(d, y) :: Parent(d', y) == Parent(d, y)
    ensures forall y: nat | Dir(d, y) :: Reached(d', y)
  {
    hide Rooted, Dir, Parent, Up;
    forall y: nat | Dir(d, y) ensures Reached(d', y) {
      var n: nat :| Up(d, y, n) == ROOT;
      AwayFrom(d, y, n, s);
      UpSame(d, d', y, n, s);
    }
  }

  /** The way up from another directory does not lead through one without entries. */
  lemma {:induction false} NotThrough(d: Disk, y: nat, n: nat, x: nat)
    requires Rooted(d) && Dir(d, y) && y != x && x != ROOT && forall f: nat | f >= 2 :: Target(d, x, f) == 0
    ensures forall k: nat | k < n :: Up(d, y, k) != x
    decreases n
  {
    hide Rooted, Dir, Parent, Dotted, Target;
    if n > 0 {
      NoChildren(d, x, y);
      DirFacts(d, y);
      ParentIsDir(d, y);
      NotThrough(d, Parent(d, y), n - 1, x);
      forall k: nat | k < n ensures Up(d, y, k) != x {
        if k > 0 {
          assert Up(d, Parent(d, y), k - 1) != x;
        }
      }
    }
  }

  // ----- the commands

  /** Renaming keeps all directories below the root, unless a directory goes below itself: then it never does. */
  lemma RenameConnectedIff(d: Disk, d': Disk, oldp: nat, sname: seq<Byte>, newp: nat, dname: seq<Byte>, sip: nat,
                           es: nat, e: nat)
    requires Movable(d, oldp, sname, newp, dname, sip, es) && Rooted(d') && Connected(d)
    requires Target(d, newp, e) == 0 && Moved(d, d', oldp, es, newp, e, sip, dname)
    ensures Connected(d') <==> !(Dir(d, sip) && Below(d, newp, sip))
  {
    hide Rooted, Connected, Below, Cell, DecodeInum, DecodeName, Encode, NoEntry, NamedAt, Tree, Finds, Label, IsName,
         Moved, Reached, Parent;
    MovableIsRenameable(d, oldp, sname, newp, dname, sip, es);
    SourceHasCount(d, oldp, sname, newp, dname, sip, es);
    RootFacts(d);
    SecondPlace(d, newp, e);
    MovedFacts(d, d', oldp, es, newp, e, sip, dname);
    MovedParents(d, d', oldp, es, newp, e, sip, dname);
    if Dir(d, sip) {
      OnlyName(d, oldp, es, sip);
      RehungConnectedIff(d, d', sip, newp);
    } else {
      SameParentsConnected(d, d', sip);
      ReachedIsConnected(d, d');
    }
  }

  lemma ReachedIsConnected(d: Disk, d': Disk)
    requires (forall y: nat | Dir(d, y) :: Reached(d', y)) && forall y: nat :: Dir(d', y) <==> Dir(d, y)
    ensures Connected(d')
  {
    hide Reached, Dir;
  }

  lemma MovedParents(d: Disk, d': Disk, oldp: nat, es: nat, newp: nat, e: nat, sip: nat, dname: seq<Byte>)
    requires Moved(d, d', oldp, es, newp, e, sip, dname) && e >= 2 && es >= 2
    ensures Dir(d, sip) ==> Parent(d', sip) == newp
    ensures forall y: nat | !(Dir(d, sip) && y == sip) :: Parent(d', y) == Parent(d, y)
  {
    hide Cell, DecodeInum, DecodeName, Encode, NoEntry, Dir;
    EncodeDecode(newp, DOTDOT);
    assert Dir(d, sip) ==> Cell(d', sip, 1) == Encode(newp, DOTDOT);
    forall y: nat | !(Dir(d, sip) && y == sip) ensures Parent(d', y) == Parent(d, y) {
      assert Cell(d', y, 1) == Cell(d, y, 1);
    }
  }

  /** Making a file or directory does. */
  lemma CreateKeepsConnected(d: Disk, d': Disk, rp: nat, name: seq<Byte>, typ: Ushort, ip: nat, at: nat)
    requires Rooted(d) && Connected(d) && Dir(d, rp) && FirstFree(d.inodes, ip)
    requires Created(d, d', rp, name, typ, ip, at)
    ensures Connected(d')
  {
    hide Rooted, Cell, DecodeInum, DecodeName, Encode, Up, Full, Finds, Label, Parent;
    RootFacts(d);
    if !Full(d, rp) {
      SecondPlace(d, rp, at);
    }
    CreatedParents(d, d', rp, name, typ, ip, at);
    SameParentsConnected(d, d', ip);
    if typ == T_DIR {
      var n: nat :| Up(d', rp, n) == ROOT;
      UpOne(d', ip, n);
    }
    forall x: nat | Dir(d', x) ensures Reached(d', x) {
    }
  }

  lemma CreatedParents(d: Disk, d': Disk, rp: nat, name: seq<Byte>, typ: Ushort, ip: nat, at: nat)
    requires Created(d, d', rp, name, typ, ip, at) && Dir(d, rp) && !Dir(d, ip) && (!Full(d, rp) ==> at >= 2)
    ensures typ == T_DIR ==> Parent(d', ip) == rp
    ensures forall y: nat | Dir(d, y) :: Parent(d', y) == Parent(d, y)
  {
    hide Rooted, Cell, DecodeInum, DecodeName, Encode, Full, Finds, Target;
    CreatedParentCell(d, d', rp, name, typ, ip, at);
    forall y: nat | Dir(d, y) ensures Parent(d', y) == Parent(d, y) {
      assert Cell(d', y, 1) == Cell(d, y, 1);
      SameTarget(d, d', y);
    }
  }

  lemma CreatedParentCell(d: Disk, d': Disk, rp: nat, name: seq<Byte>, typ: Ushort, ip: nat, at: nat)
    requires Created(d, d', rp, name, typ, ip, at) && Dir(d, rp) && !Dir(d, ip)
    ensures typ == T_DIR ==> Parent(d', ip) == rp
  {
    hide Rooted, Cell, DecodeInum, DecodeName, Encode, Full, Finds;
    EncodeDecode(rp, DOTDOT);
    assert typ == T_DIR ==> Cell(d', ip, 1) == Encode(rp, DOTDOT);
  }

  lemma SameTarget(d: Disk, d': Disk, y: nat)
    requires Cell(d', y, 1) == Cell(d, y, 1)
    ensures Parent(d', y) == Parent(d, y)
  {
  }

  /** Removing an empty directory does. */
  lemma RemovalKeepsConnected(d: Disk, d': Disk, rp: nat, e: nat, x: nat)
    requires Rooted(d) && Connected(d) && Dir(d, x) && Names(d, rp, e, x) && Removed(d, d', rp, e, x)
    requires forall f: nat | f >= 2 :: Target(d, x, f) == 0
    ensures Connected(d')
  {
    hide Rooted, Cell, DecodeInum, DecodeName, NoEntry, Up, NamedAt, BlocksBack;
    OnlyName(d, rp, e, x);
    forall y: nat | Dir(d', y) ensures Reached(d', y) {
      forall z: nat | Dir(d, z) && z != x ensures Parent(d', z) == Parent(d, z) {
        assert Cell(d', z, 1) == Cell(d, z, 1);
      }
      assert Dir(d, y) && Reached(d, y);
      var n: nat :| Up(d, y, n) == ROOT;
      NotThrough(d, y, n, x);
      UpSame(d, d', y, n, x);
    }
  }

  /** Entries that are no parent's may change. */
  lemma SameUpsConnected(d: Disk, d': Disk)
    requires Rooted(d) && Connected(d) && forall y: nat :: Dir(d', y) <==> Dir(d, y)
    requires forall y: nat :: Cell(d', y, 1) == Cell(d, y, 1)
    ensures Connected(d')
  {
    hide Rooted, Connected, Dir, Parent, Cell, Reached;
    RootFacts(d);
    forall y: nat ensures Parent(d', y) == Parent(d, y) {
      SameTarget(d, d', y);
    }
    SameParentsConnected(d, d', 0);
    ReachedIsConnected(d, d');
  }

  /** A new name for a file or device does. */
  lemma LinkKeepsConnected(d: Disk, d': Disk, dp: nat, name: seq<Byte>, ip: nat, e: nat, mid: Disk)
    requires Rooted(d) && Connected(d) && Linked(d, d', dp, name, ip, e, mid)
    ensures Connected(d')
  {
    hide Rooted, Connected, Cell, Linked, Frame, Encode, DecodeInum, DecodeName;
    LinkedEffect(d, d', dp, name, ip, e, mid);
    LinkedWhere(d, d', dp, name, ip, e, mid);
    RootFacts(d);
    SecondPlace(d, dp, e);
    SameUpsConnected(d, d');
  }

  /** Unlinking a file or device does. */
  lemma UnlinkKeepsConnected(d: Disk, d': Disk, rp: nat, e: nat, ip: nat, d1: Disk)
    requires Rooted(d) && Connected(d) && UnlinkDone(d, d', rp, e, ip, d1) && Dir(d, rp) && Target(d, rp, e) == ip
    requires !Dir(d, ip)
    ensures Connected(d')
  {
    hide Rooted, Connected, Cell, UnlinkDone, Frame, NoEntry, DecodeInum, DecodeName, Orphans;
    UnlinkCells(d, d', rp, e, ip, d1);
    UnlinkRange(d, d', rp, e, ip, d1);
    FrameLength(d, d', {rp, ip});
    SecondPlace(d, rp, e);
    forall y: nat ensures Cell(d', y, 1) == Cell(d, y, 1) {
      if y == ip {
        NotDirCell(d, ip, 1);
      }
    }
    SameUpsConnected(d, d');
  }

  lemma NotDirCell(d: Disk, i: nat, y: nat)
    requires !Dir(d, i)
    ensures Cell(d, i, y) == NoEntry()
  {
  }
}
