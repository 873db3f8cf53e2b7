/** The directory operations of tools/libfs.c, and what each does to entries and link counts. */
module FsDir {
  import opened FsDisk
  import opened FsLinks
  import opened FsImage
  import opened Options

  // ----- what one entry written and one count adjusted do to a tree

  lemma InodeZeroIsFree(d: Disk)
    requires DirsOk(d)
    ensures 0 < |d.inodes| <= USHORT && d.inodes[0].typ == 0
  {
  }

  function One(b: bool): nat { if b then 1 else 0 }

  /** One entry written, then one count set: a tree if that balances every inode. */
  lemma WriteThenCount(d: Disk, d': Disk, dp: nat, e: nat, bytes: seq<Byte>, ip: nat, v: Ushort, owed: nat, owed': nat)
    requires Tree(d, owed) && EntryWritten(d, d', dp, e, bytes) && EntryOk(d, dp, bytes) && ip < |d'.inodes|
    requires forall x: nat | 0 < x < |d.inodes| && d.inodes[x].typ != 0 ::
      (if x == ip then v else d.inodes[x].nlink) + One(x == owed')
      == d.inodes[x].nlink + One(x == owed) + Weight(bytes, x) - OldWeight(d, dp, e, x)
    ensures Tree(WithNlink(d', ip, v), owed')
  {
    hide EntryWritten, Sound, DirsOk, Links, Weight, OldWeight, EntryOk;
    DirsOkAfterWrite(d, d', dp, e, bytes);
    EntryWrittenIsSound(d, d', dp, e, bytes);
    NlinkKeepsFiles(d', ip, v);
    NlinkKeepsDirs(d', ip, v);
    InodeZeroIsFree(d);
    CountsAfterWrite(d, d', dp, e, bytes, 0);
    var d'' := WithNlink(d', ip, v);
    forall x: nat | x < |d''.inodes| ensures LinkCountOk(d'', x, owed') {
      assert LinkCountOk(d, x, owed);
      CountsAfterWrite(d, d', dp, e, bytes, x);
      CountsAfterNlink(d', ip, v, x);
    }
    TreeFromCounts(d'', owed');
  }

  /** Whether an empty entry, or none yet, is at place `e`. */
  ghost predicate Vacant(d: Disk, dp: nat, e: nat) {
    && dp < |d.inodes| && d.inodes[dp].size <= MAXFILE * BSIZE && d.inodes[dp].size % ENTRY == 0
    && (ENTRY * e + ENTRY <= d.inodes[dp].size ==> Inum(Content(d, dp), e) == 0)
  }

  lemma VacantWeight(d: Disk, dp: nat, e: nat)
    requires Vacant(d, dp, e)
    ensures forall x: nat | x > 0 :: OldWeight(d, dp, e, x) == 0
  {
  }

  /** A new link to `ip` in a free entry, and its count raised unless the name is ".". */
  lemma LinkAdded(d: Disk, d': Disk, dp: nat, e: nat, bytes: seq<Byte>, ip: nat, owed: nat)
    requires Tree(d, owed) && EntryWritten(d, d', dp, e, bytes) && EntryOk(d, dp, bytes)
    requires DecodeInum(bytes) == ip && ip < |d.inodes| && d.inodes[ip].typ != 0
    requires DecodeName(bytes) == DOT || d.inodes[ip].nlink + 1 < USHORT
    requires Vacant(d, dp, e)
    ensures ip < |d'.inodes|
    ensures Tree(WithNlink(d', ip, Counted(d.inodes[ip].nlink, DecodeName(bytes))), owed)
  {
    hide Tree, Sound, EntryWritten, Vacant, OldWeight, CName, DecodeInum;
    TreeIsSound(d, owed);
    VacantWeight(d, dp, e);
    EntryWrittenIsSound(d, d', dp, e, bytes);
    WriteThenCount(d, d', dp, e, bytes, ip, Counted(d.inodes[ip].nlink, DecodeName(bytes)), owed, owed);
  }

  /** The 16-bit count of an inode after a link with the given name; "." does not count. */
  function Counted(nlink: Ushort, name: seq<Byte>): Ushort {
    if name == DOT then nlink else (nlink + 1) % USHORT
  }

  /** At 65535 links the count wraps and is wrong. */
  lemma LinkOverflows(d: Disk, d': Disk, dp: nat, e: nat, bytes: seq<Byte>, ip: nat, owed: nat)
    requires Tree(d, owed) && EntryWritten(d, d', dp, e, bytes) && EntryOk(d, dp, bytes)
    requires DecodeInum(bytes) == ip && ip < |d.inodes| && d.inodes[ip].typ != 0
    requires DecodeName(bytes) != DOT && d.inodes[ip].nlink + 1 == USHORT
    requires Vacant(d, dp, e)
    ensures ip < |d'.inodes| && !Tree(WithNlink(d', ip, Counted(d.inodes[ip].nlink, DecodeName(bytes))), owed)
  {
    hide Links, Vacant, OldWeight, EntryWritten;
    VacantWeight(d, dp, e);
    EntryWrittenIsSound(d, d', dp, e, bytes);
    DirsOkAfterWrite(d, d', dp, e, bytes);
    CountsAfterWrite(d, d', dp, e, bytes, ip);
    CountsAfterNlink(d', ip, 0, ip);
    assert LinkCountOk(d, ip, owed);
    assert !LinkCountOk(WithNlink(d', ip, 0), ip, owed);
  }

  /** An inode some entry links to has a positive count. */
  lemma LinkedHasCount(d: Disk, dp: nat, e: nat, ip: nat, owed: nat)
    requires Tree(d, owed) && dp < |d.inodes| && IsDir(d.inodes[dp]) && ENTRY * e + ENTRY <= d.inodes[dp].size
    requires DirOk(d, dp) && LinksTo(EntryBytes(Content(d, dp), e), ip) && 0 < ip && ip != owed
    ensures ip < |d.inodes| && d.inodes[ip].typ != 0 && d.inodes[ip].nlink >= 1
  {
    var c := Content(d, dp);
    assert EntryOk(d, dp, EntryBytes(c, e));
    CountZero(c, ip, |c| / ENTRY);
    LinksCoverDir(d, ip, dp, |d.inodes|);
    assert LinkCountOk(d, ip, owed);
  }

  /** A link to `ip` erased, and its count lowered. */
  lemma LinkErased(d: Disk, d': Disk, dp: nat, e: nat, ip: nat, owed: nat)
    requires Tree(d, owed) && EntryWritten(d, d', dp, e, NoEntry()) && ENTRY * e + ENTRY <= d.inodes[dp].size
    requires LinksTo(EntryBytes(Content(d, dp), e), ip) && 0 < ip && ip != owed
    ensures ip < |d'.inodes| == |d.inodes| && d.inodes[ip].nlink >= 1
    ensures Tree(WithNlink(d', ip, d.inodes[ip].nlink - 1), owed)
  {
    hide Tree, Sound, DirsOk, OthersUntouched, Content, EntryBytes, CName, DecodeInum, NoEntry;
    TreeIsSound(d, owed);
    LinkedHasCount(d, dp, e, ip, owed);
    NoEntryIsEmpty();
    EntryWrittenIsSound(d, d', dp, e, NoEntry());
    WriteThenCount(d, d', dp, e, NoEntry(), ip, d.inodes[ip].nlink - 1, owed, owed);
  }

  // ----- an inode going away

  /** Inode `x` was emptied and freed, and nothing else changed. */
  ghost predicate InodeFreed(d: Disk, d': Disk, x: nat) {
    && x < |d.inodes| && d.inodes[x].typ != 0
    && Sound(d') && OthersUntouched(d, d', x) && d'.inodes[x].typ == 0 && d'.inodes[x].nlink == d.inodes[x].nlink
    && (d.inodes[x].typ != T_DEV ==> d'.inodes[x].size == 0)
  }

  /** The entries of a freed directory stop counting. */
  lemma LinksAfterFree(d: Disk, d': Disk, x: nat, y: nat)
    requires InodeFreed(d, d', x)
    ensures Links(d', y) == Links(d, y) - Count(DirBytes(d, x), y)
  {
    forall i: nat | i < |d.inodes| && i != x ensures DirBytes(d', i) == DirBytes(d, i) {
      UntouchedDirBytes(d, d', i);
    }
    LinksChange(d, d', x, y);
  }

  /** No entry outside inode `x` links to it. */
  ghost predicate NoOtherLinks(d: Disk, x: nat) {
    x < |d.inodes| && Links(d, x) == Count(DirBytes(d, x), x)
  }

  lemma NoLinksNoEntries(d: Disk, x: nat, i: nat, e: nat)
    requires DirsOk(d) && NoOtherLinks(d, x) && i < |d.inodes| && IsDir(d.inodes[i]) && i != x && DirOk(d, i)
    requires ENTRY * e + ENTRY <= d.inodes[i].size
    ensures Inum(Content(d, i), e) != x
  {
    hide Content, LinksUpTo;
    var c := Content(d, i);
    LinksCoverTwo(d, x, i, x, |d.inodes|);
    CountZero(c, x, |c| / ENTRY);
    assert EntryOk(d, i, EntryBytes(c, e));
  }

  lemma DirsOkAfterFree(d: Disk, d': Disk, x: nat)
    requires DirsOk(d) && InodeFreed(d, d', x) && NoOtherLinks(d, x)
    ensures DirsOk(d')
  {
    hide Sound, Links, NoOtherLinks;
    assert x != 0;
    assert Untouched(d, d', 0);
    forall i: nat | i < |d'.inodes| && IsDir(d'.inodes[i]) ensures DirOk(d', i) {
      assert Untouched(d, d', i);
      assert DirOk(d, i) && Content(d', i) == Content(d, i);
      forall e: nat | ENTRY * e + ENTRY <= d'.inodes[i].size ensures EntryOk(d', i, EntryBytes(Content(d', i), e)) {
        NoLinksNoEntries(d, x, i, e);
        var y := DecodeInum(EntryBytes(Content(d, i), e));
        assert EntryOk(d, i, EntryBytes(Content(d, i), e));
        assert Untouched(d, d', y);
      }
    }
  }

  /** What a freed directory's own entries must be for all counts to come out right. */
  ghost predicate OnlyOwes(d: Disk, x: nat, owed: nat)
    requires x < |d.inodes|
  {
    forall y: nat | 0 < y < |d.inodes| && y != x && d.inodes[y].typ != 0 ::
      Count(DirBytes(d, x), y) == if y == owed then 1 else 0
  }

  /** Freeing an inode nothing else links to keeps all counts right exactly if its entries link only to `owed`, once. */
  lemma FreedKeepsCountsIff(d: Disk, d': Disk, x: nat, owed: nat)
    requires Tree(d, owed) && InodeFreed(d, d', x) && NoOtherLinks(d, x)
    ensures Tree(d', 0) <==> OnlyOwes(d, x, owed)
  {
    DirsOkAfterFree(d, d', x);
    InodeZeroIsFree(d);
    assert Sound(d');
    assert forall y: nat | y < |d'.inodes| && y != x :: d'.inodes[y] == d.inodes[y] by {
      forall y: nat | y < |d'.inodes| && y != x ensures d'.inodes[y] == d.inodes[y] {
        assert Untouched(d, d', y);
      }
    }
    hide Sound, DirsOk, Links, Count, DirBytes, OthersUntouched, NoOtherLinks;
    forall y: nat | 0 < y < |d.inodes| && y != x && d.inodes[y].typ != 0
      ensures LinkCountOk(d', y, 0) <==> Count(DirBytes(d, x), y) == if y == owed then 1 else 0
    {
      assert LinkCountOk(d, y, owed);
      LinksAfterFree(d, d', x, y);
    }
    if OnlyOwes(d, x, owed) {
      forall y: nat | y < |d'.inodes| ensures LinkCountOk(d', y, 0) {
      }
      TreeFromCounts(d', 0);
    }
  }

  // ----- the operations

  lemma TreeDir(d: Disk, owed: nat, dp: nat)
    requires Tree(d, owed) && dp < |d.inodes| && IsDir(d.inodes[dp])
    ensures Sound(d) && DirsOk(d) && DirOk(d, dp)
  {
  }

  lemma TreeIsSound(d: Disk, owed: nat)
    requires Tree(d, owed)
    ensures Sound(d) && DirsOk(d) && Owned(d)
    ensures 0 < |d.inodes| <= USHORT && d.inodes[0].typ == 0
  {
  }

  /** Reading the `e`-th entry of a directory. */
  method ReadEntry(img: Image, dp: nat, off: nat) returns (bytes: seq<Byte>)
    requires Sound(img.Disk()) && dp < |img.inodes| && IsDir(img.inodes[dp]) && img.inodes[dp].size <= MAXFILE * BSIZE
    requires ENTRY * (off / ENTRY) == off && off + ENTRY <= img.inodes[dp].size
    modifies img
    ensures img.Disk() == old(img.Disk())
    ensures bytes == EntryBytes(Content(img.Disk(), dp), off / ENTRY)
  {
    hide Sound, Content;
    var n;
    n, bytes := img.IRead(dp, ENTRY, off);
  }

  /** The first entry with the given name, as `dlookup` finds it. */
  ghost predicate FirstNamed(c: seq<Byte>, name: seq<Byte>, e: nat) {
    && ENTRY * e + ENTRY <= |c| && Name(c, e) == name
    && forall x: nat | x < e :: Name(c, x) != name
  }

  ghost predicate NotNamed(c: seq<Byte>, name: seq<Byte>) {
    forall x: nat | ENTRY * x + ENTRY <= |c| :: Name(c, x) != name
  }

  /** The search itself: it does not care what the entries name. */
  method FindName(img: Image, dp: nat, name: seq<Byte>) returns (found: bool, inum: nat, off: nat)
    requires Sound(img.Disk()) && dp < |img.inodes| && IsDir(img.inodes[dp])
    requires img.inodes[dp].size <= MAXFILE * BSIZE && img.inodes[dp].size % ENTRY == 0
    modifies img
    ensures img.Disk() == old(img.Disk())
    ensures found ==> off % ENTRY == 0 && FirstNamed(Content(img.Disk(), dp), name, off / ENTRY)
    ensures found ==> inum == Inum(Content(img.Disk(), dp), off / ENTRY)
    ensures !found ==> NotNamed(Content(img.Disk(), dp), name)
  {
    hide Sound, Content, CName, EntryBytes, DecodeInum;
    ghost var c := Content(img.Disk(), dp);
    found, inum, off := false, 0, 0;
    while off < img.inodes[dp].size
      invariant img.Disk() == old(img.Disk()) && off % ENTRY == 0 && off <= |c|
      invariant forall x: nat | x < off / ENTRY :: Name(c, x) != name
    {
      EntryFits(off, img.inodes[dp].size);
      var bytes := ReadEntry(img, dp, off);
      if DecodeName(bytes) == name {
        return true, DecodeInum(bytes), off;
      }
      off := off + ENTRY;
    }
  }

  /** In a directory as it should be, what is found is a live inode. */
  method DLookup(img: Image, dp: nat, name: seq<Byte>) returns (found: bool, inum: nat, off: nat)
    requires Sound(img.Disk()) && dp < |img.inodes| && IsDir(img.inodes[dp]) && DirOk(img.Disk(), dp) && IsName(name)
    modifies img
    ensures img.Disk() == old(img.Disk())
    ensures found ==> off % ENTRY == 0 && FirstNamed(Content(img.Disk(), dp), name, off / ENTRY)
    ensures found ==>
      inum == Inum(Content(img.Disk(), dp), off / ENTRY) && 0 < inum < |img.inodes| && img.inodes[inum].typ != 0
    ensures !found ==> NotNamed(Content(img.Disk(), dp), name)
  {
    hide Sound, Content, CName, EntryBytes, DecodeInum, NotNamed;
    found, inum, off := FindName(img, dp, name);
    if found {
      assert EntryOk(img.Disk(), dp, EntryBytes(Content(img.Disk(), dp), off / ENTRY));
    }
  }

  /** Writing an entry over an existing one or at the end of a directory. */
  method WriteEntry(img: Image, dp: nat, off: nat, bytes: seq<Byte>) returns (r: Outcome<int>)
    requires Sound(img.Disk()) && dp < |img.inodes| && IsDir(img.inodes[dp]) && DirOk(img.Disk(), dp)
    requires off % ENTRY == 0 && off <= img.inodes[dp].size && |bytes| == ENTRY
    modifies img
    ensures Owned(img.Disk()) && OthersUntouched(old(img.Disk()), img.Disk(), dp)
    ensures r == Ok(ENTRY) ==> EntryWritten(old(img.Disk()), img.Disk(), dp, off / ENTRY, bytes)
    ensures off + ENTRY > MAXFILE * BSIZE ==> r == Ok(-1) && img.Disk() == old(img.Disk())
    ensures off + ENTRY <= MAXFILE * BSIZE ==> r == Ok(ENTRY) || r == Fatal
    ensures off + ENTRY <= MAXFILE * BSIZE ==>
      Grows(old(img.Disk()), img.Disk(), old(img.inodes[dp].size), GrownTo(old(img.inodes[dp].size), off / ENTRY),
        r.Ok?)
    ensures off < old(img.inodes[dp].size) ==>
      r == Ok(ENTRY) && img.used == old(img.used) && img.owner == old(img.owner) && img.inodes == old(img.inodes)
  {
    hide Sound, Owned, Content, OthersUntouched, Grows;
    assert ENTRY * (off / ENTRY) == off;
    if off < img.inodes[dp].size {
      EntryFits(off, img.inodes[dp].size);
    }
    r := img.IWrite(dp, bytes, off);
  }

  method SetNlink(img: Image, x: nat, v: Ushort)
    requires x < |img.inodes|
    modifies img
    ensures img.Disk() == WithNlink(old(img.Disk()), x, v)
  {
    img.inodes := img.inodes[x := img.inodes[x].(nlink := v)];
  }

  /** Where `daddent` puts an entry: the first empty one, or the end; `dup` if the name comes before that. */
  ghost predicate Room(c: seq<Byte>, name: seq<Byte>, off: nat, dup: bool) {
    && off % ENTRY == 0 && off <= |c| && |c| % ENTRY == 0
    && (forall x: nat | x < off / ENTRY :: Inum(c, x) != 0 && Name(c, x) != name)
    && (dup ==> off < |c| && Inum(c, off / ENTRY) != 0 && Name(c, off / ENTRY) == name)
    && (!dup && off < |c| ==> Inum(c, off / ENTRY) == 0)
  }

  method FindRoom(img: Image, dp: nat, name: seq<Byte>) returns (off: nat, dup: bool)
    requires Sound(img.Disk()) && dp < |img.inodes| && IsDir(img.inodes[dp]) && DirOk(img.Disk(), dp) && IsName(name)
    modifies img
    ensures img.Disk() == old(img.Disk())
    ensures Room(Content(img.Disk(), dp), name, off, dup)
  {
    hide Sound, Content, CName, EntryBytes, EntryOk;
    ghost var c := Content(img.Disk(), dp);
    off, dup := 0, false;
    while off < img.inodes[dp].size
      invariant img.Disk() == old(img.Disk()) && off % ENTRY == 0 && off <= |c|
      invariant forall x: nat | x < off / ENTRY :: Inum(c, x) != 0 && Name(c, x) != name
    {
      EntryFits(off, img.inodes[dp].size);
      var bytes := ReadEntry(img, dp, off);
      if DecodeInum(bytes) == 0 {
        break;
      }
      if DecodeName(bytes) == name {
        dup := true;
        return;
      }
      off := off + ENTRY;
    }
  }

  /** The name is in use before the first empty entry: what `daddent` notices. */
  ghost predicate Taken(c: seq<Byte>, name: seq<Byte>) {
    exists x: nat :: ENTRY * x + ENTRY <= |c| && Name(c, x) == name && forall y: nat | y <= x :: Inum(c, y) != 0
  }

  /** A directory of the largest size with no empty entry. */
  ghost predicate Full(d: Disk, dp: nat) {
    && dp < |d.inodes| && d.inodes[dp].size == MAXFILE * BSIZE
    && forall x: nat | ENTRY * x + ENTRY <= MAXFILE * BSIZE :: Inum(Content(d, dp), x) != 0
  }

  /** The data blocks another entry costs: none if an entry is empty or the last block has room. */
  ghost function EntryCost(d: Disk, dp: nat): int
    requires dp < |d.inodes| && d.inodes[dp].size <= MAXFILE * BSIZE
  {
    var size := d.inodes[dp].size;
    if exists x: nat :: ENTRY * x + ENTRY <= size && Inum(Content(d, dp), x) == 0 then 0
    else Footprint(size + ENTRY) - Footprint(size)
  }

  /** Adding an entry succeeds exactly if that many blocks are free, and takes that many. */
  ghost predicate Pays(d: Disk, d': Disk, cost: int, ok: bool) {
    && (ok <==> cost <= FreeBlocks(d))
    && (ok ==> FreeBlocks(d') == FreeBlocks(d) - cost)
  }

  lemma CostOfPlace(d: Disk, dp: nat, name: seq<Byte>, off: nat)
    requires dp < |d.inodes| && DirOk(d, dp) && Room(Content(d, dp), name, off, false)
    ensures var size := d.inodes[dp].size;
            EntryCost(d, dp) == Footprint(GrownTo(size, off / ENTRY)) - Footprint(size)
  {
    hide Content, EntryBytes, CName, EntryOk, Footprint;
    var size := d.inodes[dp].size;
    if off < size {
      EntryFits(off, size);
      assert Inum(Content(d, dp), off / ENTRY) == 0;
    }
  }

  /** What the search for room says about the whole directory. */
  lemma RoomMeans(d: Disk, dp: nat, name: seq<Byte>, off: nat, dup: bool)
    requires dp < |d.inodes| && DirOk(d, dp) && Room(Content(d, dp), name, off, dup)
    ensures dup <==> Taken(Content(d, dp), name)
    ensures dup || off + ENTRY > MAXFILE * BSIZE <==> Taken(Content(d, dp), name) || Full(d, dp)
  {
    hide Content, EntryBytes, CName, EntryOk;
    var c := Content(d, dp);
    if off < |c| {
      EntryFits(off, |c|);
    }
    if x: nat :| ENTRY * x + ENTRY <= |c| && Name(c, x) == name && forall y: nat | y <= x :: Inum(c, y) != 0 {
      assert off / ENTRY <= x;
      assert Inum(c, off / ENTRY) != 0;
    }
    if Full(d, dp) && off < |c| {
      assert Inum(c, off / ENTRY) != 0;
    }
  }

  /** The state after a link was added: `mid` is the image between writing the entry and counting it. */
  ghost predicate Linked(d: Disk, d': Disk, dp: nat, name: seq<Byte>, ip: nat, e: nat, mid: Disk) {
    && |name| <= DIRSIZ && ip < USHORT && ip < |d.inodes| && ip < |mid.inodes|
    && EntryWritten(d, mid, dp, e, Encode(ip, name))
    && Vacant(d, dp, e)
    && (forall x: nat | x < e :: Inum(Content(d, dp), x) != 0 && Name(Content(d, dp), x) != name)
    && d' == WithNlink(mid, ip, Counted(d.inodes[ip].nlink, name))
  }

  /** A link added, seen from the whole image. */
  lemma LinkedEffect(d: Disk, d': Disk, dp: nat, name: seq<Byte>, ip: nat, e: nat, mid: Disk)
    requires Linked(d, d', dp, name, ip, e, mid)
    ensures CellWritten(d, d', dp, e, Encode(ip, name)) && Frame(d, d', {dp, ip})
    ensures forall y: nat | y < |d.inodes| ::
              d'.inodes[y].nlink == if y == ip then Counted(d.inodes[ip].nlink, name) else d.inodes[y].nlink
    ensures dp < |d.inodes| && ENTRY * e <= d.inodes[dp].size
  {
    hide EntryWritten, CellWritten, Frame;
    WriteCountEffect(d, mid, dp, e, Encode(ip, name), ip, Counted(d.inodes[ip].nlink, name));
    LinkedPlace(d, mid, dp, e, Encode(ip, name));
  }

  lemma LinkedPlace(d: Disk, mid: Disk, dp: nat, e: nat, bytes: seq<Byte>)
    requires EntryWritten(d, mid, dp, e, bytes)
    ensures dp < |d.inodes| && ENTRY * e <= d.inodes[dp].size
  {
  }

  /** The count of a new link; the name "." does not count. */
  method CountLink(img: Image, name: seq<Byte>, ip: nat)
    requires ip < |img.inodes|
    modifies img
    ensures img.Disk() == WithNlink(old(img.Disk()), ip, Counted(old(img.inodes)[ip].nlink, name))
  {
    if name != DOT {
      SetNlink(img, ip, (img.inodes[ip].nlink + 1) % USHORT);
    } else {
      assert img.inodes[ip := img.inodes[ip]] == img.inodes;
    }
  }

  /** The rest of `daddent`: write the entry, and count it unless it is ".". */
  method PutLink(img: Image, dp: nat, off: nat, name: seq<Byte>, ip: nat, ghost owed: nat)
    returns (r: Outcome<int>, ghost mid: Disk)
    requires Tree(img.Disk(), owed) && dp < |img.inodes| && IsDir(img.inodes[dp]) && IsName(name)
    requires ip < |img.inodes| && img.inodes[ip].typ != 0 && (name == DOT ==> ip == dp)
    requires DirOk(img.Disk(), dp) && Room(Content(img.Disk(), dp), name, off, false)
    modifies img
    ensures Owned(img.Disk()) && Frame(old(img.Disk()), img.Disk(), {dp, ip})
    ensures off + ENTRY > MAXFILE * BSIZE ==> r == Ok(-1) && img.Disk() == old(img.Disk())
    ensures off + ENTRY <= MAXFILE * BSIZE ==> r == Ok(0) || r == Fatal
    ensures off + ENTRY <= MAXFILE * BSIZE ==>
      Pays(old(img.Disk()), img.Disk(), EntryCost(old(img.Disk()), dp), r == Ok(0))
    ensures r == Ok(0) ==> |img.inodes| <= USHORT && ip < |old(img.inodes)| && ip < |mid.inodes|
    ensures r == Ok(0) ==> EntryWritten(old(img.Disk()), mid, dp, off / ENTRY, Encode(ip, name))
    ensures r == Ok(0) ==> img.Disk() == WithNlink(mid, ip, Counted(old(img.inodes)[ip].nlink, name))
    ensures r == Ok(0) ==> (Tree(img.Disk(), owed) <==> name == DOT || old(img.inodes)[ip].nlink + 1 < USHORT)
  {
    hide Tree, Sound, Owned, DirsOk, DirOk, Content, Encode, CName, EntryBytes, EntryWritten, Frame, OthersUntouched,
         Footprint, FreeIn, EntryCost;
    ghost var d := img.Disk();
    TreeDir(d, owed, dp);
    TreeIsSound(d, owed);
    DirBound(d, dp);
    CostOfPlace(d, dp, name, off);
    mid := d;
    var w := WriteEntry(img, dp, off, Encode(ip, name));
    FrameOfOne(d, img.Disk(), dp);
    FrameWider(d, img.Disk(), {dp}, {dp, ip});
    if w.Fatal? {
      return Fatal, d;
    }
    if w.value != ENTRY {
      return Ok(-1), d;
    }
    mid := img.Disk();
    PutLinkEffect(d, mid, dp, off / ENTRY, name, ip, owed);
    CountLink(img, name, ip);
    WriteCountEffect(d, mid, dp, off / ENTRY, Encode(ip, name), ip, Counted(d.inodes[ip].nlink, name));
    r := Ok(0);
  }

  lemma PutLinkEffect(d: Disk, mid: Disk, dp: nat, e: nat, name: seq<Byte>, ip: nat, owed: nat)
    requires Tree(d, owed) && IsName(name) && ip < |d.inodes| && d.inodes[ip].typ != 0 && (name == DOT ==> ip == dp)
    requires ip < USHORT && EntryWritten(d, mid, dp, e, Encode(ip, name))
    requires Vacant(d, dp, e)
    ensures ip < |mid.inodes| == |d.inodes| && mid.inodes[ip].nlink == d.inodes[ip].nlink
    ensures var d' := WithNlink(mid, ip, Counted(d.inodes[ip].nlink, name));
            Owned(d') && (Tree(d', owed) <==> name == DOT || d.inodes[ip].nlink + 1 < USHORT)
  {
    hide EntryWritten, Tree, Sound, Owned, Encode, Content, EntryBytes, CName;
    var bytes := Encode(ip, name);
    TreeIsSound(d, owed);
    EncodeDecode(ip, name);
    EntryWrittenIsSound(d, mid, dp, e, bytes);
    CountsAfterWrite(d, mid, dp, e, bytes, ip);
    var v := Counted(d.inodes[ip].nlink, name);
    NlinkKeepsFiles(mid, ip, v);
    SoundIsOwned(WithNlink(mid, ip, v));
    if name == DOT || d.inodes[ip].nlink + 1 < USHORT {
      LinkAdded(d, mid, dp, e, bytes, ip, owed);
    } else {
      LinkOverflows(d, mid, dp, e, bytes, ip, owed);
    }
  }

  lemma DirBound(d: Disk, dp: nat)
    requires dp < |d.inodes| && DirOk(d, dp)
    ensures d.inodes[dp].size <= MAXFILE * BSIZE && d.inodes[dp].size % ENTRY == 0
  {
  }

  /** A link by the given name, in the first empty entry; refused exactly if the name is noticed or there is no room. */
  method DAddEnt(img: Image, dp: nat, name: seq<Byte>, ip: nat, ghost owed: nat)
    returns (r: Outcome<int>, ghost e: nat, ghost mid: Disk)
    requires Tree(img.Disk(), owed) && dp < |img.inodes| && IsDir(img.inodes[dp]) && IsName(name)
    requires ip < |img.inodes| && img.inodes[ip].typ != 0 && (name == DOT ==> ip == dp)
    modifies img
    ensures Owned(img.Disk()) && Frame(old(img.Disk()), img.Disk(), {dp, ip})
    ensures r.Fatal? || r == Ok(0) || r == Ok(-1)
    ensures DirOk(old(img.Disk()), dp)
    ensures r == Ok(-1) <==> Taken(Content(old(img.Disk()), dp), name) || Full(old(img.Disk()), dp)
    ensures r == Ok(-1) ==> img.Disk() == old(img.Disk())
    ensures r != Ok(-1) ==> Pays(old(img.Disk()), img.Disk(), EntryCost(old(img.Disk()), dp), r == Ok(0))
    ensures r == Ok(0) ==> Linked(old(img.Disk()), img.Disk(), dp, name, ip, e, mid)
    ensures r == Ok(0) ==> (Tree(img.Disk(), owed) <==> name == DOT || old(img.inodes)[ip].nlink + 1 < USHORT)
  {
    hide Tree, Sound, Owned, DirsOk, Content, Encode, EntryWritten, CName, EntryBytes, EntryOk, Taken, Full, Frame,
         Pays, EntryCost;
    ghost var d := img.Disk();
    TreeDir(d, owed, dp);
    TreeIsSound(d, owed);
    NoChange(d);
    FrameWider(d, d, {}, {dp, ip});
    e, mid := 0, d;
    var off, dup := FindRoom(img, dp, name);
    RoomMeans(d, dp, name, off, dup);
    if dup {
      return Ok(-1), 0, d;
    }
    e := off / ENTRY;
    r, mid := PutLink(img, dp, off, name, ip, owed);
  }

  // ----- allocating and freeing inodes

  function FreshInode(typ: Ushort): Dinode {
    Dinode(typ, 0, 0, 0, 0, NoAddrs())
  }

  lemma {:induction false} DeadHasNoLinks(d: Disk, x: nat, n: nat)
    requires DirsOk(d) && x < |d.inodes| && d.inodes[x].typ == 0 && x != 0 && n <= |d.inodes|
    ensures LinksUpTo(d, x, n) == 0
  {
    hide Content, CName, EntryBytes;
    if n > 0 {
      DeadHasNoLinks(d, x, n - 1);
      var c := DirBytes(d, n - 1);
      if IsDir(d.inodes[n - 1]) {
        assert DirOk(d, n - 1);
        forall e: nat | e < |c| / ENTRY ensures !LinksTo(EntryBytes(c, e), x) {
          assert EntryOk(d, n - 1, EntryBytes(c, e));
        }
      }
      CountZero(c, x, |c| / ENTRY);
    }
  }

  /** A free inode taken into use keeps a tree a tree. */
  lemma FreshInodeKeepsTree(d: Disk, i: nat, typ: Ushort, owed: nat)
    requires Tree(d, owed) && 0 < i < |d.inodes| && d.inodes[i].typ == 0 && i != owed && typ != 0
    ensures var d' := d.(inodes := d.inodes[i := FreshInode(typ)]); Tree(d', owed) && OthersUntouched(d, d', i)
  {
    var d' := d.(inodes := d.inodes[i := FreshInode(typ)]);
    TypeSound(d, i, FreshInode(typ));
    DeadHasNoLinks(d, i, |d.inodes|);
    hide Sound, Count;
    forall x: nat | x < |d.inodes| ensures DirBytes(d', x) == DirBytes(d, x) {
      if x != i {
        UntouchedDirBytes(d, d', x);
      }
    }
    forall x: nat | x < |d'.inodes| ensures LinkCountOk(d', x, owed) {
      assert LinkCountOk(d, x, owed);
      LinksChange(d, d', i, x);
    }
    FreshInodeKeepsDirs(d, i, typ);
  }

  lemma FreshInodeKeepsDirs(d: Disk, i: nat, typ: Ushort)
    requires DirsOk(d) && 0 < i < |d.inodes| && d.inodes[i].typ == 0 && typ != 0
    requires OthersUntouched(d, d.(inodes := d.inodes[i := FreshInode(typ)]), i)
    ensures DirsOk(d.(inodes := d.inodes[i := FreshInode(typ)]))
  {
    var d' := d.(inodes := d.inodes[i := FreshInode(typ)]);
    forall x: nat | x < |d'.inodes| && IsDir(d'.inodes[x]) ensures DirOk(d', x) {
      if x != i {
        assert Untouched(d, d', x) && DirOk(d, x);
        assert Content(d', x) == Content(d, x);
        forall e: nat | ENTRY * e + ENTRY <= d'.inodes[x].size ensures EntryOk(d', x, EntryBytes(Content(d', x), e)) {
          assert EntryOk(d, x, EntryBytes(Content(d, x), e));
        }
      }
    }
  }

  method IAlloc(img: Image, typ: Ushort, ghost owed: nat) returns (r: Outcome<nat>)
    requires Tree(img.Disk(), owed) && typ != 0 && (owed != 0 ==> owed < |img.inodes| && img.inodes[owed].typ != 0)
    modifies img
    ensures r.Ok? ==>
      && 0 < r.value < |old(img.inodes)| && old(img.inodes)[r.value].typ == 0
      && (forall x | 0 < x < r.value :: old(img.inodes)[x].typ != 0)
      && img.Disk() == old(img.Disk()).(inodes := old(img.inodes)[r.value := FreshInode(typ)])
      && Tree(img.Disk(), owed) && OthersUntouched(old(img.Disk()), img.Disk(), r.value)
    ensures r.Fatal? ==> img.Disk() == old(img.Disk()) && forall x | 0 < x < |img.inodes| :: img.inodes[x].typ != 0
  {
    hide Tree, OthersUntouched;
    var inum := 1;
    while inum < |img.inodes|
      invariant 1 <= inum && img.Disk() == old(img.Disk())
      invariant forall x | 0 < x < inum && x < |img.inodes| :: img.inodes[x].typ != 0
    {
      if img.inodes[inum].typ == 0 {
        FreshInodeKeepsTree(img.Disk(), inum, typ, owed);
        img.inodes := img.inodes[inum := FreshInode(typ)];
        return Ok(inum);
      }
      inum := inum + 1;
    }
    return Fatal;
  }

  method IFree(img: Image, x: nat) returns (r: int)
    modifies img
    ensures r == if 0 < x < |img.inodes| then 0 else -1
    ensures img.Disk() == if 0 < x < |old(img.inodes)|
                          then old(img.Disk()).(inodes := old(img.inodes)[x := old(img.inodes)[x].(typ := 0)])
                          else old(img.Disk())
  {
    if 0 < x < |img.inodes| {
      img.inodes := img.inodes[x := img.inodes[x].(typ := 0)];
      return 0;
    }
    return -1;
  }

  /** Of the data blocks in use, exactly those inode `x` held are free again. */
  ghost predicate BlocksBack(d: Disk, d': Disk, x: nat) {
    forall b: nat | b < |d.used| && ValidDataBlock(d.sb, b) ::
      b < |d'.used| && (d'.used[b] <==> d.used[b] && b in d.owner && d.owner[b].inum != x)
  }

  /** The end of unlink when no link is left: empty the file and free the inode. */
  method Destroy(img: Image, x: nat)
    requires Sound(img.Disk()) && 0 < x < |img.inodes| && img.inodes[x].typ != 0
    modifies img
    ensures InodeFreed(old(img.Disk()), img.Disk(), x) && BlocksBack(old(img.Disk()), img.Disk(), x)
  {
    ghost var d := img.Disk();
    NothingDone(d, x, 0);
    if img.inodes[x].typ != T_DEV {
      var t := img.ITruncate(x, 0);
    }
    ghost var e := img.Disk();
    TypeSound(e, x, e.inodes[x].(typ := 0));
    var f := IFree(img, x);
    OthersUntouchedTransitive(d, e, img.Disk(), x);
    ReturnedByFreeing(d, img.Disk(), x);
  }

  lemma ReturnedByFreeing(d: Disk, d': Disk, x: nat)
    requires Sound(d) && InodeFreed(d, d', x)
    ensures BlocksBack(d, d', x)
  {
    hide Owned, OthersUntouched, ValidDataBlock;
    SoundIsOwned(d);
    SoundIsOwned(d');
    forall b: nat | b < |d.used| && ValidDataBlock(d.sb, b)
      ensures b < |d'.used| && (d'.used[b] <==> d.used[b] && b in d.owner && d.owner[b].inum != x)
    {
      BlocksReturned(d, d', x, b);
    }
  }
}
