/** That no directory has two entries of one name, and which operations keep it so. */
module FsNames {
  import opened FsDisk
  import opened FsLinks
  import opened FsDir
  import opened FsUnlink
  import opened FsTree
  import opened FsCommands

  ghost predicate Unique(d: Disk) {
    forall i: nat, e: nat, f: nat | Label(d, i, e) != [] && Label(d, i, e) == Label(d, i, f) :: e == f
  }

  ghost predicate HasName(d: Disk, i: nat, name: seq<Byte>) {
    exists e: nat :: Label(d, i, e) == name
  }

  /** A name of directory `i` leads to inode `x`. */
  ghost predicate Leads(d: Disk, i: nat, name: seq<Byte>, x: nat) {
    exists e: nat :: Label(d, i, e) == name && Target(d, i, e) == x
  }

  /** Every name leads where it did, save for these names and for those of these directories. */
  ghost predicate NamesKept(d: Disk, d': Disk, named: set<(nat, seq<Byte>)>, inside: set<nat>) {
    forall i: nat, name: seq<Byte>, x: nat | name != [] && (i, name) !in named && i !in inside ::
      Leads(d', i, name, x) <==> Leads(d, i, name, x)
  }

  /** Entry `e` of directory `i` is as before, or is and was empty or one of these names. */
  ghost predicate EntryKept(d: Disk, d': Disk, named: set<(nat, seq<Byte>)>, inside: set<nat>, i: nat, e: nat) {
    || i in inside || (Label(d', i, e) == Label(d, i, e) && Target(d', i, e) == Target(d, i, e))
    || ((Label(d, i, e) == [] || (i, Label(d, i, e)) in named)
        && (Label(d', i, e) == [] || (i, Label(d', i, e)) in named))
  }

  lemma EntriesKeepNames(d: Disk, d': Disk, named: set<(nat, seq<Byte>)>, inside: set<nat>)
    requires forall i: nat, e: nat :: EntryKept(d, d', named, inside, i, e)
    ensures NamesKept(d, d', named, inside)
  {
    hide Label, Target;
    forall i: nat, name: seq<Byte>, x: nat | name != [] && (i, name) !in named && i !in inside
      ensures Leads(d', i, name, x) <==> Leads(d, i, name, x)
    {
      if e: nat :| Label(d, i, e) == name && Target(d, i, e) == x {
        assert EntryKept(d, d', named, inside, i, e);
        assert Label(d', i, e) == name;
      }
      if e: nat :| Label(d', i, e) == name && Target(d', i, e) == x {
        assert EntryKept(d, d', named, inside, i, e);
        assert Label(d, i, e) == name;
      }
    }
  }

  lemma NamesKeptTrans(d: Disk, e: Disk, f: Disk, named: set<(nat, seq<Byte>)>, inside: set<nat>)
    requires NamesKept(d, e, named, inside) && NamesKept(e, f, named, inside)
    ensures NamesKept(d, f, named, inside)
  {
    hide Leads;
  }

  lemma NamesKeptWider(d: Disk, e: Disk, named: set<(nat, seq<Byte>)>, inside: set<nat>, more: set<(nat, seq<Byte>)>,
                       around: set<nat>)
    requires NamesKept(d, e, named, inside) && named <= more && inside <= around
    ensures NamesKept(d, e, more, around)
  {
    hide Leads;
  }

  /** Where a name leads, by the entry that has it. */
  lemma LeadsByEntry(d: Disk, i: nat, name: seq<Byte>, e: nat)
    requires Unique(d) && Label(d, i, e) == name != []
    ensures HasName(d, i, name) && Finds(d, i, name, e)
    ensures forall x: nat :: Leads(d, i, name, x) <==> x == Target(d, i, e)
  {
    hide Label, Target;
  }

  lemma NoLead(d: Disk, i: nat, name: seq<Byte>)
    requires !HasName(d, i, name)
    ensures forall x: nat :: !Leads(d, i, name, x)
  {
    hide Label, Target;
  }

  /** A new link adds its name and no other. */
  lemma LinkNames(d: Disk, d': Disk, dp: nat, name: seq<Byte>, ip: nat, e: nat, mid: Disk)
    requires DirsOk(d) && Linked(d, d', dp, name, ip, e, mid) && IsName(name)
    ensures Leads(d', dp, name, ip) && NamesKept(d, d', {(dp, name)}, {})
  {
    hide DirsOk, Cell, DecodeInum, DecodeName, Encode, Linked, Frame, IsName, Leads, NamesKept;
    LinkedEffect(d, d', dp, name, ip, e, mid);
    LinkedWhere(d, d', dp, name, ip, e, mid);
    LinkedRange(d, d', dp, name, ip, e, mid);
    EncodeName(ip, name);
    CellOk(d, dp, e);
    forall i: nat, y: nat ensures EntryKept(d, d', {(dp, name)}, {}, i, y) {
    }
    EntriesKeepNames(d, d', {(dp, name)}, {});
    LeadsAt(d', dp, e);
  }

  lemma LeadsAt(d: Disk, i: nat, e: nat)
    ensures Leads(d, i, Label(d, i, e), Target(d, i, e))
  {
  }

  /** Unlinking takes away its name and no other, but for those inside what is freed. */
  lemma UnlinkNames(d: Disk, d': Disk, rp: nat, e: nat, ip: nat, d1: Disk)
    requires UnlinkDone(d, d', rp, e, ip, d1)
    ensures NamesKept(d, d', {(rp, Label(d, rp, e))}, if Dir(d, ip) then {ip} else {})
  {
    hide Cell, DecodeInum, DecodeName, UnlinkDone, NoEntry, Frame, Orphans, NamesKept;
    UnlinkCells(d, d', rp, e, ip, d1);
    UnlinkRange(d, d', rp, e, ip, d1);
    NoEntryIsEmpty();
    var named, inside := {(rp, Label(d, rp, e))}, if Dir(d, ip) then {ip} else {};
    forall i: nat, y: nat ensures EntryKept(d, d', named, inside, i, y) {
      if i == ip && !Dir(d, ip) {
        NoDirCell(d, ip, y);
      }
    }
    EntriesKeepNames(d, d', named, inside);
  }

  lemma NoDirCell(d: Disk, i: nat, e: nat)
    requires !Dir(d, i)
    ensures Cell(d, i, e) == NoEntry()
  {
  }

  /** A removed directory takes its name and its own with it. */
  lemma RemovalNames(d: Disk, d': Disk, rp: nat, e: nat, x: nat)
    requires Removed(d, d', rp, e, x)
    ensures NamesKept(d, d', {(rp, Label(d, rp, e))}, {x})
  {
    hide Cell, DecodeInum, DecodeName, NoEntry, NamesKept, BlocksBack;
    NoEntryIsEmpty();
    forall i: nat, y: nat ensures EntryKept(d, d', {(rp, Label(d, rp, e))}, {x}, i, y) {
    }
    EntriesKeepNames(d, d', {(rp, Label(d, rp, e))}, {x});
  }

  /** What is made gets its name if there is room, and a directory its two. */
  lemma CreateNames(d: Disk, d': Disk, rp: nat, name: seq<Byte>, typ: Ushort, ip: nat, at: nat)
    requires DirsOk(d) && IsName(name) && Created(d, d', rp, name, typ, ip, at) && Dir(d, rp) && !HasName(d, rp, name)
    requires rp != ip
    ensures NamesKept(d, d', {(rp, name)}, {ip})
    ensures if Full(d, rp) then !HasName(d', rp, name) else Leads(d', rp, name, ip)
    ensures typ == T_DIR ==> Leads(d', ip, DOT, ip) && Leads(d', ip, DOTDOT, rp)
  {
    hide DirsOk, Cell, DecodeInum, DecodeName, Encode, IsName, Full, Rooted, Finds, NamesKept, Leads;
    EncodeName(ip, name);
    EncodeDecode(ip, DOT);
    EncodeDecode(rp, DOTDOT);
    CellOk(d, rp, at);
    forall i: nat, y: nat ensures EntryKept(d, d', {(rp, name)}, {ip}, i, y) {
    }
    EntriesKeepNames(d, d', {(rp, name)}, {ip});
    LeadsAt(d', rp, at);
    LeadsAt(d', ip, 0);
    LeadsAt(d', ip, 1);
    if Full(d, rp) {
      SameLabels(d, d', rp, name);
    }
  }

  lemma SameLabels(d: Disk, d': Disk, i: nat, name: seq<Byte>)
    requires !HasName(d, i, name) && forall y: nat :: Label(d', i, y) == Label(d, i, y)
    ensures !HasName(d', i, name)
  {
    hide Label;
  }

  /** A rename moves one name, and the ".." of a directory. */
  lemma MoveNames(d: Disk, d': Disk, oldp: nat, es: nat, newp: nat, e: nat, sip: nat, dname: seq<Byte>)
    requires DirsOk(d) && IsName(dname) && Moved(d, d', oldp, es, newp, e, sip, dname) && Target(d, newp, e) == 0
    ensures NamesKept(d, d', {(oldp, Label(d, oldp, es)), (newp, dname)}, if Dir(d, sip) then {sip} else {})
  {
    hide DirsOk, Cell, DecodeInum, DecodeName, Encode, NoEntry, NamesKept, IsName;
    NoEntryIsEmpty();
    EncodeName(sip, dname);
    CellOk(d, newp, e);
    var named, inside := {(oldp, Label(d, oldp, es)), (newp, dname)}, if Dir(d, sip) then {sip} else {};
    forall i: nat, y: nat ensures EntryKept(d, d', named, inside, i, y) {
    }
    EntriesKeepNames(d, d', named, inside);
  }

  /** Entries that are as before, or empty, keep names apart. */
  lemma FewerNames(d: Disk, d': Disk)
    requires Unique(d) && forall i: nat, e: nat :: Label(d', i, e) == Label(d, i, e) || Label(d', i, e) == []
    ensures Unique(d')
  {
    hide Label;
  }

  /** One entry given a name: names stay apart exactly if no other entry of the directory has it. */
  lemma OneNameMore(d: Disk, d': Disk, i: nat, e: nat)
    requires Unique(d) && Label(d, i, e) == [] && Label(d', i, e) != []
    requires forall j: nat, y: nat | j != i || y != e :: Label(d', j, y) == Label(d, j, y)
    ensures Unique(d') <==> !HasName(d, i, Label(d', i, e))
  {
    hide Label;
    var name := Label(d', i, e);
    if HasName(d, i, name) {
      var y: nat :| Label(d, i, y) == name;
      assert Label(d', i, y) == name && y != e;
    }
  }

  /** Without its entry, the name is not in the directory any more. */
  lemma NameGone(d: Disk, d': Disk, i: nat, e: nat, name: seq<Byte>)
    requires Unique(d) && Label(d, i, e) == name != [] && Label(d', i, e) != name
    requires forall y: nat | y != e :: Label(d', i, y) == Label(d, i, y) || Label(d', i, y) != name
    ensures !HasName(d', i, name)
  {
    hide Label;
    if y: nat :| Label(d', i, y) == name {
      var was := Label(d, i, y);
    }
  }

  // ----- the operations

  /** Adding an entry keeps names apart exactly if the name was not there, behind an empty entry. */
  lemma LinkUniqueIff(d: Disk, d': Disk, dp: nat, name: seq<Byte>, ip: nat, e: nat, mid: Disk)
    requires DirsOk(d) && Unique(d) && Linked(d, d', dp, name, ip, e, mid) && IsName(name)
    ensures Unique(d') <==> !HasName(d, dp, name)
    ensures Label(d', dp, e) == name
  {
    hide DirsOk, Cell, DecodeInum, DecodeName, Encode, Linked, Frame, IsName, HasName, Unique;
    LinkedEffect(d, d', dp, name, ip, e, mid);
    LinkedWhere(d, d', dp, name, ip, e, mid);
    LinkedRange(d, d', dp, name, ip, e, mid);
    EncodeName(ip, name);
    NameLength(name);
    CellOk(d, dp, e);
    OneNameMore(d, d', dp, e);
  }

  /** Unlinking keeps them apart, and the name is gone. */
  lemma UnlinkKeepsUnique(d: Disk, d': Disk, rp: nat, e: nat, ip: nat, d1: Disk)
    requires Unique(d) && UnlinkDone(d, d', rp, e, ip, d1) && Label(d, rp, e) != []
    ensures Unique(d') && !HasName(d', rp, Label(d, rp, e))
  {
    hide Cell, DecodeInum, DecodeName, UnlinkDone, NoEntry, Frame, HasName, Unique, Orphans;
    UnlinkCells(d, d', rp, e, ip, d1);
    UnlinkRange(d, d', rp, e, ip, d1);
    NoEntryIsEmpty();
    FewerNames(d, d');
    NameGone(d, d', rp, e, Label(d, rp, e));
  }

  /** So does removing a directory. */
  lemma RemovalKeepsUnique(d: Disk, d': Disk, rp: nat, e: nat, x: nat)
    requires Unique(d) && Removed(d, d', rp, e, x) && Label(d, rp, e) != []
    ensures Unique(d') && !HasName(d', rp, Label(d, rp, e))
  {
    hide Cell, DecodeInum, DecodeName, NoEntry, HasName, Unique, BlocksBack;
    NoEntryIsEmpty();
    FewerNames(d, d');
    NameGone(d, d', rp, e, Label(d, rp, e));
  }

  /** Making a file or directory keeps them apart. */
  lemma CreateKeepsUnique(d: Disk, d': Disk, rp: nat, name: seq<Byte>, typ: Ushort, ip: nat, at: nat)
    requires DirsOk(d) && Unique(d) && IsName(name) && !HasName(d, rp, name) && !Dir(d, ip) && ip != rp
    requires Created(d, d', rp, name, typ, ip, at)
    ensures Unique(d')
  {
    hide DirsOk, Cell, DecodeInum, DecodeName, Encode, IsName, Full, Rooted, Finds;
    EncodeName(ip, name);
    EncodeDecode(ip, DOT);
    EncodeDecode(rp, DOTDOT);
    forall i: nat, e: nat, f: nat | Label(d', i, e) != [] && Label(d', i, e) == Label(d', i, f) ensures e == f {
      if i == ip {
        NoLabel(d, ip, e);
        NoLabel(d, ip, f);
      } else {
        assert Label(d, i, e) == Label(d, i, f) && Label(d, i, e) != [] ==> e == f;
      }
    }
  }

  /** Renaming keeps them apart, and moves the name. */
  lemma MoveKeepsUnique(d: Disk, d': Disk, oldp: nat, sname: seq<Byte>, newp: nat, dname: seq<Byte>, sip: nat, es: nat,
                        e: nat)
    requires Movable(d, oldp, sname, newp, dname, sip, es) && Unique(d) && Target(d, newp, e) == 0
    requires Moved(d, d', oldp, es, newp, e, sip, dname)
    ensures Unique(d') && !HasName(d', oldp, sname) && Label(d', newp, e) == dname
  {
    hide Cell, DecodeInum, DecodeName, Encode, NoEntry, Tree, Rooted, DirsOk, Sound, Target;
    MovableIsRenameable(d, oldp, sname, newp, dname, sip, es);
    SourceHasCount(d, oldp, sname, newp, dname, sip, es);
    MovedLabels(d, d', oldp, sname, newp, dname, sip, es, e);
    forall i: nat, x: nat, y: nat | Label(d', i, x) != [] && Label(d', i, x) == Label(d', i, y) ensures x == y {
      assert Label(d, i, x) == Label(d, i, y) && Label(d, i, x) != [] ==> x == y;
    }
    NameGone(d, d', oldp, es, sname);
  }

  lemma MovedLabels(d: Disk, d': Disk, oldp: nat, sname: seq<Byte>, newp: nat, dname: seq<Byte>, sip: nat, es: nat,
                    e: nat)
    requires Renameable(d, oldp, sname, newp, dname, sip, es) && es >= 2 && Target(d, newp, e) == 0 && 0 < sip
    requires Moved(d, d', oldp, es, newp, e, sip, dname)
    ensures (oldp != newp || es != e) && e >= 2
    ensures forall j: nat, y: nat ::
      Label(d', j, y) == if j == oldp && y == es then [] else if j == newp && y == e then dname else Label(d, j, y)
  {
    hide Cell, DecodeInum, DecodeName, Encode, NoEntry, Tree, Rooted, IsName;
    RootFacts(d);
    SecondPlace(d, newp, e);
    EncodeName(sip, dname);
    EncodeDecode(newp, DOTDOT);
    NoEntryIsEmpty();
    if Dir(d, sip) {
      DirFacts(d, sip);
    }
  }

  /** Losing a name in a full directory keeps the others apart. */
  lemma LostKeepsUnique(d: Disk, d': Disk, oldp: nat, es: nat, sip: nat)
    requires Unique(d) && Lost(d, d', oldp, es, sip) && Label(d, oldp, es) != [] && es >= 2
    ensures Unique(d') && !HasName(d', oldp, Label(d, oldp, es))
  {
    hide Cell, DecodeInum, DecodeName, NoEntry, HasName, Unique, Dir;
    NoEntryIsEmpty();
    forall i: nat, e: nat ensures Label(d', i, e) == Label(d, i, e) || Label(d', i, e) == [] {
    }
    FewerNames(d, d');
    NameGone(d, d', oldp, es, Label(d, oldp, es));
  }
}
