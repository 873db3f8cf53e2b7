/**
 Directory contents of tools/libfs.c and the link counts they give rise to. A directory is a file of
 16-byte entries: an inode number, least significant byte first, and a name of up to 14 bytes, padded
 with NULs. An entry with inode number 0 is empty.
 */
module FsLinks {
  import opened FsDisk

  const DIRSIZ := 14
  const ENTRY := 16

  const DOT: seq<Byte> := [46]
  const DOTDOT: seq<Byte> := [46, 46]

  /** A file name as the path functions produce it: non-empty, no NUL, at most 14 bytes. */
  predicate IsName(name: seq<Byte>) {
    1 <= |name| <= DIRSIZ && forall i | 0 <= i < |name| :: name[i] != 0
  }

  /** The bytes before the first NUL: what `strncmp` compares. */
  function CName(field: seq<Byte>): seq<Byte> {
    if field == [] || field[0] == 0 then [] else [field[0]] + CName(field[1..])
  }

  function Encode(inum: nat, name: seq<Byte>): (bytes: seq<Byte>)
    requires inum < USHORT && |name| <= DIRSIZ
    ensures |bytes| == ENTRY
  {
    [inum % 256, inum / 256] + name + seq(DIRSIZ - |name|, _ => 0)
  }

  /** The entry fields of 16 bytes. */
  function DecodeInum(bytes: seq<Byte>): nat
    requires |bytes| == ENTRY
  {
    (bytes[0] as int) + 256 * (bytes[1] as int)
  }

  function DecodeName(bytes: seq<Byte>): seq<Byte>
    requires |bytes| == ENTRY
  {
    CName(bytes[2..])
  }

  lemma {:induction false} CNamePadded(name: seq<Byte>, pad: seq<Byte>)
    requires forall i | 0 <= i < |name| :: name[i] != 0
    requires pad == [] || pad[0] == 0
    ensures CName(name + pad) == name
  {
    if name == [] {
      assert name + pad == pad;
    } else {
      assert (name + pad)[1..] == name[1..] + pad;
      CNamePadded(name[1..], pad);
    }
  }

  /** Reading an entry back yields the number and the name written. */
  lemma EncodeDecode(inum: nat, name: seq<Byte>)
    requires inum < USHORT && |name| <= DIRSIZ && forall i | 0 <= i < |name| :: name[i] != 0
    ensures DecodeInum(Encode(inum, name)) == inum && DecodeName(Encode(inum, name)) == name
  {
    var pad: seq<Byte> := seq(DIRSIZ - |name|, _ => 0);
    assert Encode(inum, name)[2..] == name + pad;
    CNamePadded(name, pad);
  }

  /** An erased entry. */
  function NoEntry(): (bytes: seq<Byte>)
    ensures |bytes| == ENTRY
  {
    Encode(0, [])
  }

  lemma NoEntryIsEmpty()
    ensures DecodeInum(NoEntry()) == 0 && DecodeName(NoEntry()) == []
  {
    EncodeDecode(0, []);
  }

  // ----- the entries of a directory's contents

  function EntryBytes(c: seq<Byte>, e: nat): (bytes: seq<Byte>)
    requires ENTRY * e + ENTRY <= |c|
    ensures |bytes| == ENTRY
  {
    c[ENTRY * e..ENTRY * e + ENTRY]
  }

  function Inum(c: seq<Byte>, e: nat): nat
    requires ENTRY * e + ENTRY <= |c|
  {
    DecodeInum(EntryBytes(c, e))
  }

  function Name(c: seq<Byte>, e: nat): seq<Byte>
    requires ENTRY * e + ENTRY <= |c|
  {
    DecodeName(EntryBytes(c, e))
  }

  /** An entry that begins within a directory ends within it. */
  lemma EntryFits(off: nat, size: nat)
    requires off % ENTRY == 0 && size % ENTRY == 0 && off < size
    ensures off + ENTRY <= size && ENTRY * (off / ENTRY) == off
  {
  }

  lemma EntriesAfterWrite(c: seq<Byte>, e: nat, bytes: seq<Byte>, x: nat)
    requires |c| % ENTRY == 0 && ENTRY * e <= |c| && |bytes| == ENTRY
    requires x < |Overwritten(c, ENTRY * e, bytes)| / ENTRY
    ensures |Overwritten(c, ENTRY * e, bytes)| == if ENTRY * e == |c| then |c| + ENTRY else |c|
    ensures x != e ==> ENTRY * x + ENTRY <= |c|
    ensures EntryBytes(Overwritten(c, ENTRY * e, bytes), x) == if x == e then bytes else EntryBytes(c, x)
  {
    var c' := Overwritten(c, ENTRY * e, bytes);
    assert |c'| == if ENTRY * e == |c| then |c| + ENTRY else |c|;
    if x == e {
      assert EntryBytes(c', x) == bytes;
    } else {
      assert ENTRY * x + ENTRY <= |c|;
      assert EntryBytes(c', x) == EntryBytes(c, x);
    }
  }

  /** Entry `e` is a link to inode `x`: it names it, by a name other than ".". */
  predicate LinksTo(bytes: seq<Byte>, x: nat)
    requires |bytes| == ENTRY
  {
    DecodeInum(bytes) == x && DecodeName(bytes) != DOT
  }

  function Weight(bytes: seq<Byte>, x: nat): nat
    requires |bytes| == ENTRY
  {
    if LinksTo(bytes, x) then 1 else 0
  }

  /** How many of the first `n` entries are links to `x`. */
  function CountTo(c: seq<Byte>, x: nat, n: nat): nat
    requires ENTRY * n <= |c|
  {
    if n == 0 then 0 else CountTo(c, x, n - 1) + Weight(EntryBytes(c, n - 1), x)
  }

  function Count(c: seq<Byte>, x: nat): nat {
    CountTo(c, x, |c| / ENTRY)
  }

  lemma {:induction false} CountToAfterWrite(c: seq<Byte>, e: nat, bytes: seq<Byte>, x: nat, n: nat)
    requires |c| % ENTRY == 0 && ENTRY * e <= |c| && |bytes| == ENTRY && ENTRY * n <= |c|
    ensures ENTRY * n <= |Overwritten(c, ENTRY * e, bytes)|
    ensures CountTo(Overwritten(c, ENTRY * e, bytes), x, n)
            == CountTo(c, x, n) + if e < n then Weight(bytes, x) - Weight(EntryBytes(c, e), x) else 0
  {
    if n > 0 {
      CountToAfterWrite(c, e, bytes, x, n - 1);
      EntriesAfterWrite(c, e, bytes, x := n - 1);
    }
  }

  /** Writing one entry changes the count by what the entry links to now and linked to before. */
  lemma CountAfterWrite(c: seq<Byte>, e: nat, bytes: seq<Byte>, x: nat)
    requires |c| % ENTRY == 0 && ENTRY * e <= |c| && |bytes| == ENTRY
    ensures Count(Overwritten(c, ENTRY * e, bytes), x)
            == Count(c, x) + Weight(bytes, x) - if ENTRY * e + ENTRY <= |c| then Weight(EntryBytes(c, e), x) else 0
  {
    var n := |c| / ENTRY;
    CountToAfterWrite(c, e, bytes, x, n);
    if e == n {
      EntriesAfterWrite(c, e, bytes, n);
    }
  }

  lemma {:induction false} CountZero(c: seq<Byte>, x: nat, n: nat)
    requires ENTRY * n <= |c|
    ensures CountTo(c, x, n) == 0 <==> forall e: nat | e < n :: !LinksTo(EntryBytes(c, e), x)
  {
    if n > 0 {
      CountZero(c, x, n - 1);
    }
  }

  // ----- link counts over the whole image

  predicate IsDir(ino: Dinode) {
    ino.typ == T_DIR
  }

  /** The contents of inode `i` if it is a directory. */
  function DirBytes(d: Disk, i: nat): seq<Byte>
    requires i < |d.inodes|
  {
    if IsDir(d.inodes[i]) && d.inodes[i].size <= MAXFILE * BSIZE then Content(d, i) else []
  }

  /** Directory entries other than "." that name `x`, in the directories among the first `n` inodes. */
  function LinksUpTo(d: Disk, x: nat, n: nat): nat
    requires n <= |d.inodes|
  {
    if n == 0 then 0 else LinksUpTo(d, x, n - 1) + Count(DirBytes(d, n - 1), x)
  }

  function Links(d: Disk, x: nat): nat {
    LinksUpTo(d, x, |d.inodes|)
  }

  lemma LinksUpToStep(d: Disk, x: nat, n: nat)
    requires n <= |d.inodes|
    ensures LinksUpTo(d, x, n) == if n == 0 then 0 else LinksUpTo(d, x, n - 1) + Count(DirBytes(d, n - 1), x)
  {
  }

  /** The two images differ, as directories go, at most in inode `i`. */
  ghost predicate SameDirsBut(d: Disk, d': Disk, i: nat) {
    |d'.inodes| == |d.inodes| && forall x: nat | x < |d.inodes| && x != i :: DirBytes(d', x) == DirBytes(d, x)
  }

  lemma {:induction false} LinksUpToChange(d: Disk, d': Disk, i: nat, x: nat, n: nat)
    requires SameDirsBut(d, d', i) && n <= |d.inodes|
    ensures i < n ==> LinksUpTo(d', x, n) == LinksUpTo(d, x, n) + Count(DirBytes(d', i), x) - Count(DirBytes(d, i), x)
    ensures i >= n ==> LinksUpTo(d', x, n) == LinksUpTo(d, x, n)
  {
    hide Count, DirBytes;
    if n > 0 {
      LinksUpToChange(d, d', i, x, n - 1);
    }
  }

  lemma LinksChange(d: Disk, d': Disk, i: nat, x: nat)
    requires SameDirsBut(d, d', i) && i < |d.inodes|
    ensures Links(d', x) == Links(d, x) + Count(DirBytes(d', i), x) - Count(DirBytes(d, i), x)
  {
    LinksUpToChange(d, d', i, x, |d.inodes|);
  }

  lemma {:induction false} LinksCoverDir(d: Disk, x: nat, i: nat, n: nat)
    requires i < n <= |d.inodes|
    ensures Count(DirBytes(d, i), x) <= LinksUpTo(d, x, n)
  {
    hide Count, DirBytes;
    if i < n - 1 {
      LinksCoverDir(d, x, i, n - 1);
    }
  }

  /** Two directories' links are both counted. */
  lemma {:induction false} LinksCoverTwo(d: Disk, x: nat, i: nat, j: nat, n: nat)
    requires i < n <= |d.inodes| && j < n && i != j
    ensures Count(DirBytes(d, i), x) + Count(DirBytes(d, j), x) <= LinksUpTo(d, x, n)
  {
    hide Count, DirBytes;
    if i == n - 1 {
      LinksCoverDir(d, x, j, n - 1);
    } else if j == n - 1 {
      LinksCoverDir(d, x, i, n - 1);
    } else {
      LinksCoverTwo(d, x, i, j, n - 1);
    }
  }

  // ----- a well-formed tree

  /** Entry `e` of directory `i`: empty, or a live inode; and "." is the directory itself. */
  ghost predicate EntryOk(d: Disk, i: nat, bytes: seq<Byte>)
    requires |bytes| == ENTRY
  {
    && DecodeInum(bytes) < |d.inodes|
    && (if DecodeInum(bytes) == 0 then DecodeName(bytes) == [] else d.inodes[DecodeInum(bytes)].typ != 0)
    && (DecodeName(bytes) == DOT ==> DecodeInum(bytes) == i)
  }

  ghost predicate DirOk(d: Disk, i: nat)
    requires i < |d.inodes|
  {
    && d.inodes[i].size <= MAXFILE * BSIZE && d.inodes[i].size % ENTRY == 0
    && forall e: nat | ENTRY * e + ENTRY <= d.inodes[i].size :: EntryOk(d, i, EntryBytes(Content(d, i), e))
  }

  ghost predicate DirsOk(d: Disk) {
    && 0 < |d.inodes| <= USHORT && d.inodes[0].typ == 0
    && forall i: nat | i < |d.inodes| && IsDir(d.inodes[i]) :: DirOk(d, i)
  }

  /** Inode `x`'s count is the number of its links; one less for `owed`, if that is an inode. */
  ghost predicate LinkCountOk(d: Disk, x: nat, owed: nat)
    requires x < |d.inodes|
  {
    d.inodes[x].typ != 0 ==> d.inodes[x].nlink + (if x == owed then 1 else 0) == Links(d, x)
  }

  /** A sound image whose directories are well formed and whose link counts are right, save for `owed`. */
  ghost predicate Tree(d: Disk, owed: nat) {
    Sound(d) && DirsOk(d) && forall x: nat | x < |d.inodes| :: LinkCountOk(d, x, owed)
  }

  // ----- writing one entry

  /** One entry of directory `dp` was written and nothing else changed. */
  ghost predicate EntryWritten(d: Disk, d': Disk, dp: nat, e: nat, bytes: seq<Byte>) {
    && dp < |d.inodes| && IsDir(d.inodes[dp]) && DirOk(d, dp) && |bytes| == ENTRY
    && ENTRY * e <= d.inodes[dp].size
    && Sound(d') && OthersUntouched(d, d', dp)
    && d'.inodes[dp] == d.inodes[dp].(addrs := d'.inodes[dp].addrs, size := d'.inodes[dp].size)
    && d'.inodes[dp].size <= MAXFILE * BSIZE
    && Content(d', dp) == Overwritten(Content(d, dp), ENTRY * e, bytes)
  }

  /** The link weight of what entry `e` held before. */
  function OldWeight(d: Disk, dp: nat, e: nat, x: nat): nat
    requires dp < |d.inodes| && d.inodes[dp].size <= MAXFILE * BSIZE && d.inodes[dp].size % ENTRY == 0
  {
    if ENTRY * e + ENTRY <= d.inodes[dp].size then Weight(EntryBytes(Content(d, dp), e), x) else 0
  }

  lemma UntouchedDirBytes(d: Disk, d': Disk, i: nat)
    requires i < |d.inodes| && Untouched(d, d', i)
    ensures DirBytes(d', i) == DirBytes(d, i)
  {
  }

  lemma LinksAfterWrite(d: Disk, d': Disk, dp: nat, e: nat, bytes: seq<Byte>, x: nat)
    requires EntryWritten(d, d', dp, e, bytes)
    ensures Links(d', x) == Links(d, x) + Weight(bytes, x) - OldWeight(d, dp, e, x)
  {
    forall i: nat | i < |d.inodes| && i != dp ensures DirBytes(d', i) == DirBytes(d, i) {
      UntouchedDirBytes(d, d', i);
    }
    LinksChange(d, d', dp, x);
    CountAfterWrite(Content(d, dp), e, bytes, x);
  }

  lemma WrittenDirStaysOk(d: Disk, d': Disk, dp: nat, e: nat, bytes: seq<Byte>)
    requires EntryWritten(d, d', dp, e, bytes) && EntryOk(d, dp, bytes)
    requires |d.inodes| == |d'.inodes| && forall x: nat | x < |d.inodes| :: d'.inodes[x].typ == d.inodes[x].typ
    ensures DirOk(d', dp)
  {
    hide Sound, OthersUntouched, Content;
    var c, c' := Content(d, dp), Content(d', dp);
    assert |c'| % ENTRY == 0;
    forall y: nat | ENTRY * y + ENTRY <= d'.inodes[dp].size ensures EntryOk(d', dp, EntryBytes(c', y)) {
      EntriesAfterWrite(c, e, bytes, y);
      assert y != e ==> EntryOk(d, dp, EntryBytes(c, y));
    }
  }

  lemma OtherDirStaysOk(d: Disk, d': Disk, i: nat)
    requires i < |d.inodes| == |d'.inodes| && IsDir(d.inodes[i]) && DirOk(d, i) && Untouched(d, d', i)
    requires forall x: nat | x < |d.inodes| :: d'.inodes[x].typ == d.inodes[x].typ
    ensures DirOk(d', i)
  {
    assert Content(d', i) == Content(d, i);
  }

  lemma DirsOkAfterWrite(d: Disk, d': Disk, dp: nat, e: nat, bytes: seq<Byte>)
    requires DirsOk(d) && EntryWritten(d, d', dp, e, bytes) && EntryOk(d, dp, bytes)
    ensures DirsOk(d')
  {
    hide Sound, DirOk, EntryOk;
    forall x: nat | x < |d.inodes| ensures d'.inodes[x].typ == d.inodes[x].typ {
      assert x != dp ==> Untouched(d, d', x);
    }
    forall i: nat | i < |d'.inodes| && IsDir(d'.inodes[i]) ensures DirOk(d', i) {
      if i == dp {
        WrittenDirStaysOk(d, d', dp, e, bytes);
      } else {
        assert Untouched(d, d', i);
        OtherDirStaysOk(d, d', i);
      }
    }
  }

  // ----- setting a link count

  function WithNlink(d: Disk, x: nat, v: Ushort): Disk
    requires x < |d.inodes|
  {
    d.(inodes := d.inodes[x := d.inodes[x].(nlink := v)])
  }

  lemma NlinkKeepsFiles(d: Disk, x: nat, v: Ushort)
    requires Sound(d) && x < |d.inodes|
    ensures Sound(WithNlink(d, x, v)) && OthersUntouched(d, WithNlink(d, x, v), x)
    ensures SameBytes(d, WithNlink(d, x, v), x)
  {
    var d' := WithNlink(d, x, v);
    InodeFieldsOwned(d, x, d'.inodes[x]);
    hide Owned;
    forall i: nat | i < |d.inodes| ensures Neat(d', i) && (i != x ==> Untouched(d, d', i)) {
      assert Neat(d, i);
      SlotsDependOnAddrs(d, d', i);
    }
    SlotsDependOnAddrs(d, d', x);
  }

  lemma NlinkKeepsDirs(d: Disk, x: nat, v: Ushort)
    requires Sound(d) && DirsOk(d) && x < |d.inodes|
    ensures DirsOk(WithNlink(d, x, v))
    ensures forall y :: Links(WithNlink(d, x, v), y) == Links(d, y)
  {
    var d' := WithNlink(d, x, v);
    NlinkKeepsFiles(d, x, v);
    hide Sound, Count;
    forall i: nat | i < |d.inodes| ensures DirBytes(d', i) == DirBytes(d, i) {
      SlotsDependOnAddrs(d, d', i);
    }
    forall y ensures Links(d', y) == Links(d, y) {
      LinksChange(d, d', x, y);
    }
    forall i: nat | i < |d'.inodes| && IsDir(d'.inodes[i]) ensures DirOk(d', i) {
      assert DirOk(d, i) && DirBytes(d', i) == DirBytes(d, i);
    }
  }

  lemma CountsAfterWrite(d: Disk, d': Disk, dp: nat, e: nat, bytes: seq<Byte>, x: nat)
    requires EntryWritten(d, d', dp, e, bytes) && x < |d.inodes|
    ensures x < |d'.inodes| == |d.inodes|
    ensures d'.inodes[x].typ == d.inodes[x].typ && d'.inodes[x].nlink == d.inodes[x].nlink
    ensures Links(d', x) == Links(d, x) + Weight(bytes, x) - OldWeight(d, dp, e, x)
  {
    LinksAfterWrite(d, d', dp, e, bytes, x);
    hide Links;
    assert x != dp ==> Untouched(d, d', x);
  }

  lemma CountsAfterNlink(d: Disk, x: nat, v: Ushort, y: nat)
    requires Sound(d) && DirsOk(d) && x < |d.inodes| && y < |d.inodes|
    ensures var d' := WithNlink(d, x, v);
            && Links(d', y) == Links(d, y)
            && d'.inodes[y].typ == d.inodes[y].typ && d'.inodes[y].nlink == if y == x then v else d.inodes[y].nlink
  {
    NlinkKeepsDirs(d, x, v);
  }

  /** An image with right structure whose every count is right is a tree. */
  lemma TreeFromCounts(d: Disk, owed: nat)
    requires Sound(d) && DirsOk(d) && forall x: nat | x < |d.inodes| :: LinkCountOk(d, x, owed)
    ensures Tree(d, owed)
  {
  }

  // ----- all the entries of the image, and what a change leaves alone

  ghost predicate Dir(d: Disk, i: nat) {
    i < |d.inodes| && IsDir(d.inodes[i])
  }

  /** The bytes of entry `e` of directory `i`; an empty entry if there is no such place. */
  function Cell(d: Disk, i: nat, e: nat): (bytes: seq<Byte>)
    ensures |bytes| == ENTRY
  {
    if i < |d.inodes| && ENTRY * e + ENTRY <= |DirBytes(d, i)| then EntryBytes(DirBytes(d, i), e) else NoEntry()
  }

  function Target(d: Disk, i: nat, e: nat): nat { DecodeInum(Cell(d, i, e)) }

  function Label(d: Disk, i: nat, e: nat): seq<Byte> { DecodeName(Cell(d, i, e)) }

  /** Every inode but those in `touched` is the same in both images. */
  ghost predicate Frame(d: Disk, d': Disk, touched: set<nat>) {
    && d'.sb == d.sb && |d'.inodes| == |d.inodes|
    && forall x: nat | x < |d.inodes| && x !in touched :: Untouched(d, d', x)
  }

  lemma FrameTransitive(d: Disk, e: Disk, f: Disk, s: set<nat>, t: set<nat>)
    requires Frame(d, e, s) && Frame(e, f, t)
    ensures Frame(d, f, s + t)
  {
    forall x: nat | x < |d.inodes| && x !in s + t ensures Untouched(d, f, x) {
      assert Untouched(d, e, x) && Untouched(e, f, x);
    }
  }

  lemma FrameOfOne(d: Disk, d': Disk, i: nat)
    requires OthersUntouched(d, d', i)
    ensures Frame(d, d', {i})
  {
  }

  lemma FrameWider(d: Disk, d': Disk, s: set<nat>, t: set<nat>)
    requires Frame(d, d', s) && s <= t
    ensures Frame(d, d', t)
  {
    hide Untouched;
  }

  lemma NoChange(d: Disk)
    ensures Frame(d, d, {})
  {
  }

  ghost predicate SameTypes(d: Disk, d': Disk) {
    |d'.inodes| == |d.inodes| && forall x: nat | x < |d.inodes| :: d'.inodes[x].typ == d.inodes[x].typ
  }

  /** Of all directories, entry `e` of `i` alone now reads `bytes`; a directory grows only by an entry at its end. */
  ghost predicate CellWritten(d: Disk, d': Disk, i: nat, e: nat, bytes: seq<Byte>) {
    && SameTypes(d, d')
    && (forall j: nat, x: nat :: Cell(d', j, x) == if j == i && x == e then bytes else Cell(d, j, x))
    && forall j: nat | Dir(d, j) ::
         d'.inodes[j].size == if j == i then GrownTo(d.inodes[i].size, e) else d.inodes[j].size
  }

  function GrownTo(size: nat, e: nat): nat {
    if ENTRY * e + ENTRY > size then ENTRY * e + ENTRY else size
  }

  lemma CellsAfterWrite(d: Disk, d': Disk, dp: nat, e: nat, bytes: seq<Byte>, j: nat, x: nat)
    requires EntryWritten(d, d', dp, e, bytes)
    ensures Cell(d', j, x) == if j == dp && x == e then bytes else Cell(d, j, x)
  {
    hide Sound, Content, EntryBytes;
    if j == dp {
      var c, c' := Content(d, dp), Content(d', dp);
      if ENTRY * e < |c| {
        EntryFits(ENTRY * e, |c|);
      }
      if ENTRY * x + ENTRY <= |c'| {
        EntriesAfterWrite(c, e, bytes, x);
      }
    } else if j < |d.inodes| {
      assert Untouched(d, d', j);
      UntouchedDirBytes(d, d', j);
    }
  }

  lemma EntryWrittenIsSound(d: Disk, d': Disk, dp: nat, e: nat, bytes: seq<Byte>)
    requires EntryWritten(d, d', dp, e, bytes)
    ensures Sound(d') && |d'.inodes| == |d.inodes| && dp < |d.inodes| && d.inodes[dp].typ != 0
    ensures OthersUntouched(d, d', dp) && |bytes| == ENTRY
  {
  }

  /** Writing an entry, seen from all directories. */
  lemma WriteEffect(d: Disk, d': Disk, dp: nat, e: nat, bytes: seq<Byte>)
    requires EntryWritten(d, d', dp, e, bytes)
    ensures CellWritten(d, d', dp, e, bytes) && Frame(d, d', {dp})
    ensures forall x: nat | x < |d.inodes| :: d'.inodes[x].nlink == d.inodes[x].nlink
  {
    hide Sound, Content, Cell;
    forall j: nat, x: nat ensures Cell(d', j, x) == if j == dp && x == e then bytes else Cell(d, j, x) {
      CellsAfterWrite(d, d', dp, e, bytes, j, x);
    }
    forall x: nat | x < |d.inodes|
      ensures d'.inodes[x].typ == d.inodes[x].typ && d'.inodes[x].nlink == d.inodes[x].nlink
      ensures x != dp ==> d'.inodes[x].size == d.inodes[x].size
    {
      assert x != dp ==> Untouched(d, d', x);
    }
    WrittenSize(d, d', dp, e, bytes);
  }

  lemma WrittenSize(d: Disk, d': Disk, dp: nat, e: nat, bytes: seq<Byte>)
    requires EntryWritten(d, d', dp, e, bytes)
    ensures d'.inodes[dp].size == GrownTo(d.inodes[dp].size, e)
  {
    hide Sound, Untouched;
    assert |Content(d', dp)| == |Overwritten(Content(d, dp), ENTRY * e, bytes)|;
    if ENTRY * e < d.inodes[dp].size {
      EntryFits(ENTRY * e, d.inodes[dp].size);
    }
  }

  /** Setting a count, seen from all directories. */
  lemma NlinkEffect(d: Disk, x: nat, v: Ushort)
    requires x < |d.inodes|
    ensures var d' := WithNlink(d, x, v);
            && SameTypes(d, d') && Frame(d, d', {x}) && (forall j: nat, e: nat :: Cell(d', j, e) == Cell(d, j, e))
            && (forall j: nat | j < |d.inodes| :: d'.inodes[j].size == d.inodes[j].size)
  {
    var d' := WithNlink(d, x, v);
    forall j: nat | j < |d.inodes| ensures DirBytes(d', j) == DirBytes(d, j) && (j != x ==> Untouched(d, d', j)) {
      SlotsDependOnAddrs(d, d', j);
    }
  }

  /** An entry written, then a count set. */
  lemma WriteCountEffect(d: Disk, mid: Disk, dp: nat, e: nat, bytes: seq<Byte>, x: nat, v: Ushort)
    requires EntryWritten(d, mid, dp, e, bytes) && x < |mid.inodes|
    ensures CellWritten(d, WithNlink(mid, x, v), dp, e, bytes) && Frame(d, WithNlink(mid, x, v), {dp, x})
    ensures forall y: nat | y < |d.inodes| ::
              WithNlink(mid, x, v).inodes[y].nlink == if y == x then v else d.inodes[y].nlink
  {
    hide EntryWritten, Cell, Frame;
    WriteEffect(d, mid, dp, e, bytes);
    NlinkEffect(mid, x, v);
    FrameTransitive(d, mid, WithNlink(mid, x, v), {dp}, {x});
    assert {dp} + {x} == {dp, x};
  }

  /** A free or freed directory has no entries. */
  lemma OtherCells(d: Disk, d': Disk, x: nat)
    requires OthersUntouched(d, d', x)
    ensures forall j: nat, e: nat | j != x :: Cell(d', j, e) == Cell(d, j, e)
    ensures forall e: nat :: !Dir(d', x) ==> Cell(d', x, e) == NoEntry()
  {
    hide Untouched, EntryBytes;
    forall j: nat | j < |d.inodes| && j != x ensures DirBytes(d', j) == DirBytes(d, j) {
      assert Untouched(d, d', j);
      UntouchedDirBytes(d, d', j);
    }
  }
}
