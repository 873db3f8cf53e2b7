/**
 The Kernighan and Ritchie allocator of ulib/umalloc.c (The C Programming Language, 2nd ed., section
 8.7). Addresses count header-sized units. Headers live in two maps, `ptr` and `size`, keyed by
 address; the ring of free blocks is threaded through `ptr`.
 */
module Umalloc {

  import opened Options

  const HEADER_BYTES := 16
  const MORECORE_UNITS := 4096

  /**
   The headers, which blocks they make up, and who owns each unit: `owner` maps every unit obtained
   from the system to the block it is part of.
   */
  datatype Store = Store(ptr: map<int, int>, size: map<int, int>, free: set<int>, live: set<int>, owner: map<int, int>)

  // ----- the free ring

  /** `q` follows `b` in the ring: the next free block upwards or, from the last one, `base`. */
  ghost predicate IsNext(base: int, free: set<int>, b: int, q: int) {
    && q in free
    && if b < q then forall x | x in free :: !(b < x < q) else q == base && forall x | x in free :: x <= b
  }

  /** `ptr` links the free blocks in address order with one wrap, at `base`. */
  ghost predicate Ring(base: int, free: set<int>, ptr: map<int, int>) {
    && base in free && free <= ptr.Keys
    && forall b {:trigger Succeeds(base, free, ptr, b)} | b in free :: Succeeds(base, free, ptr, b)
  }

  ghost predicate Succeeds(base: int, free: set<int>, ptr: map<int, int>, b: int) {
    b in ptr && IsNext(base, free, b, ptr[b])
  }

  /** `base` is empty and lowest, other blocks are not empty, and each ends before its successor begins. */
  ghost predicate Spaced(base: int, free: set<int>, ptr: map<int, int>, size: map<int, int>)
    requires free <= ptr.Keys
  {
    && free <= size.Keys
    && forall b {:trigger ptr[b]} {:trigger size[b]} | b in free ::
         && base <= b && (if b == base then size[b] == 0 else size[b] >= 1)
         && (b < ptr[b] ==> b + size[b] <= ptr[b])
  }

  /** Free block `b` ends exactly where its successor begins. */
  ghost predicate Seam(s: Store, b: int) {
    b in s.free && b in s.ptr && b in s.size && b + s.size[b] == s.ptr[b]  && b < s.ptr[b]
  }

  // ----- who owns each unit

  /** The block of `n` units at `b` owns them all. */
  ghost predicate Owns(owner: map<int, int>, b: int, n: int) {
    forall u | b <= u < b + n :: u in owner && owner[u] == b
  }

  /** Live and free blocks partition the units obtained from the system. */
  ghost predicate Partitioned(base: int, s: Store) {
    && s.free !! s.live && s.free <= s.size.Keys && s.live <= s.size.Keys
    && (forall b {:trigger s.size[b]} | b in s.live :: s.size[b] >= 1 && Owns(s.owner, b, s.size[b]))
    && (forall b {:trigger s.size[b]} | b in s.free :: Owns(s.owner, b, s.size[b]))
    && (forall u | u in s.owner :: base < u && InBlock(s, s.owner[u], u))
  }

  ghost predicate InBlock(s: Store, b: int, u: int) {
    b in s.free + s.live && b in s.size && b <= u < b + s.size[b]
  }

  ghost predicate Consistent(base: int, s: Store) {
    Ring(base, s.free, s.ptr) && Spaced(base, s.free, s.ptr, s.size) && Partitioned(base, s)
  }

  /** The allocator's invariant: consistent, and no two free blocks abut. */
  ghost predicate Sound(base: int, s: Store) {
    Consistent(base, s) && forall b :: !Seam(s, b)
  }

  /** The invariant, spelled out for any two free blocks: in order, apart, and never touching. */
  lemma FreeBlocksApart(base: int, s: Store, a: int, b: int)
    requires Sound(base, s) && a in s.free && b in s.free && a < b
    ensures a + s.size[a] < b
  {
    assert Succeeds(base, s.free, s.ptr, a);
    assert !Seam(s, a);
  }

  /** The invariant, spelled out for any two blocks: no unit is in both. */
  lemma BlocksDisjoint(base: int, s: Store, a: int, b: int, u: int)
    requires Sound(base, s)
    requires InBlock(s, a, u) && InBlock(s, b, u)
    ensures a == b
  {
    assert s.owner[u] == a;
  }

  /** What the callers hold: their blocks and how many units each has. */
  ghost function LiveSizes(s: Store): map<int, int> {
    map b | b in s.live && b in s.size :: s.size[b]
  }

  // ----- linking a block in

  /** `bp`, a live block, goes between the free block `p` and `p`'s successor. */
  ghost predicate Place(s: Store, p: int, bp: int) {
    && p in s.free && p in s.ptr && bp in s.live
    && p < bp && (p < s.ptr[p] ==> bp < s.ptr[p])
  }

  ghost function LinkedIn(s: Store, p: int, bp: int): Store
    requires p in s.ptr
  {
    s.(ptr := s.ptr[bp := s.ptr[p]][p := bp], free := s.free + {bp}, live := s.live - {bp})
  }

  /** A live block's free neighbours leave it its room. */
  lemma LiveBlockFits(base: int, s: Store, p: int, bp: int)
    requires Consistent(base, s) && Place(s, p, bp)
    ensures p + s.size[p] <= bp && s.size[bp] >= 1
    ensures p < s.ptr[p] ==> bp + s.size[bp] <= s.ptr[p]
  {
    var q := s.ptr[p];
    assert Owns(s.owner, p, s.size[p]) && Owns(s.owner, bp, s.size[bp]);
    assert bp in s.owner && s.owner[bp] == bp;
    if p < q {
      assert Succeeds(base, s.free, s.ptr, p);
      assert Owns(s.owner, q, s.size[q]);
      assert s.owner[q] == q;
    }
  }

  lemma NextAfterInsert(base: int, free: set<int>, p: int, q: int, bp: int, b: int, next: int)
    requires p in free && b in free && bp !in free && p < bp && (p < q ==> bp < q) && base <= p
    requires IsNext(base, free, p, q) && IsNext(base, free, b, next)
    ensures IsNext(base, free + {bp}, b, if b == p then bp else next)
    ensures IsNext(base, free + {bp}, bp, q)
  {
    if b != p {
      assert !(b < p < next) && !(p < b < q);
    }
  }

  lemma RingAfterInsert(base: int, s: Store, p: int, bp: int)
    requires Consistent(base, s) && Place(s, p, bp)
    ensures Ring(base, LinkedIn(s, p, bp).free, LinkedIn(s, p, bp).ptr)
  {
    var s', q := LinkedIn(s, p, bp), s.ptr[p];
    forall b | b in s'.free ensures Succeeds(base, s'.free, s'.ptr, b) {
      var b' := if b == bp then p else b;
      assert Succeeds(base, s.free, s.ptr, p) && Succeeds(base, s.free, s.ptr, b');
      NextAfterInsert(base, s.free, p, q, bp, b', s.ptr[b']);
    }
  }

  lemma SpacedAfterInsert(base: int, s: Store, p: int, bp: int)
    requires s.free <= s.ptr.Keys && Spaced(base, s.free, s.ptr, s.size) && Place(s, p, bp) && bp in s.size
    requires p + s.size[p] <= bp && s.size[bp] >= 1 && (p < s.ptr[p] ==> bp + s.size[bp] <= s.ptr[p])
    requires p < s.ptr[p] || s.ptr[p] == base
    ensures Spaced(base, LinkedIn(s, p, bp).free, LinkedIn(s, p, bp).ptr, s.size)
  {
  }

  lemma PartitionedAfterInsert(base: int, s: Store, p: int, bp: int)
    requires Partitioned(base, s) && p in s.ptr && bp in s.live
    ensures Partitioned(base, LinkedIn(s, p, bp))
  {
    var s' := LinkedIn(s, p, bp);
    assert s'.free + s'.live == s.free + s.live;
    forall u | u in s'.owner ensures base < u && InBlock(s', s'.owner[u], u) {
      assert InBlock(s, s.owner[u], u);
    }
  }

  lemma InsertIsConsistent(base: int, s: Store, p: int, bp: int)
    requires Consistent(base, s) && Place(s, p, bp)
    ensures Consistent(base, LinkedIn(s, p, bp))
  {
    assert Succeeds(base, s.free, s.ptr, p);
    RingAfterInsert(base, s, p, bp);
    LiveBlockFits(base, s, p, bp);
    SpacedAfterInsert(base, s, p, bp);
    PartitionedAfterInsert(base, s, p, bp);
  }

  // ----- joining two free blocks

  ghost function Joined(s: Store, p: int, q: int): Store
    requires q in s.ptr && p in s.size && q in s.size
  {
    s.(ptr := s.ptr[p := s.ptr[q]], size := s.size[p := s.size[p] + s.size[q]],
       free := s.free - {q}, owner := map u | u in s.owner :: if s.owner[u] == q then p else s.owner[u])
  }

  lemma NextAfterJoin(base: int, free: set<int>, p: int, q: int, after: int, b: int, next: int)
    requires p in free && b in free && b != q && p < q && base <= p
    requires IsNext(base, free, p, q) && IsNext(base, free, q, after) && IsNext(base, free, b, next)
    ensures IsNext(base, free - {q}, b, if b == p then after else next)
  {
    if b != p {
      assert !(p < b < q) && !(b < p < next);
    }
  }

  lemma RingAfterJoin(base: int, s: Store, p: int, q: int)
    requires Ring(base, s.free, s.ptr) && p in s.free && base <= p < q && q == s.ptr[p]
    requires p in s.size && q in s.size
    ensures q in s.free && Ring(base, Joined(s, p, q).free, Joined(s, p, q).ptr)
  {
    assert Succeeds(base, s.free, s.ptr, p) && Succeeds(base, s.free, s.ptr, q);
    var s' := Joined(s, p, q);
    forall b | b in s'.free ensures Succeeds(base, s'.free, s'.ptr, b) {
      assert Succeeds(base, s.free, s.ptr, b);
      NextAfterJoin(base, s.free, p, q, s.ptr[q], b, s.ptr[b]);
    }
  }

  lemma OwnsAfterJoin(s: Store, p: int, q: int, b: int)
    requires p in s.size && q in s.size && b in s.size && q in s.ptr
    requires p + s.size[p] == q && p != q && Owns(s.owner, p, s.size[p]) && Owns(s.owner, q, s.size[q])
    requires Owns(s.owner, b, s.size[b]) && b != q
    ensures Owns(Joined(s, p, q).owner, b, Joined(s, p, q).size[b])
  {
    var s' := Joined(s, p, q);
    forall u | b <= u < b + s'.size[b] ensures u in s'.owner && s'.owner[u] == b {
      assert u in s.owner && (s.owner[u] == b || (b == p && s.owner[u] == q));
    }
  }

  lemma PartitionedAfterJoin(base: int, s: Store, p: int, q: int)
    requires Partitioned(base, s) && p in s.free && q in s.free && q in s.ptr
    requires p + s.size[p] == q && p < q && s.size[q] >= 1
    ensures Partitioned(base, Joined(s, p, q))
  {
    var s' := Joined(s, p, q);
    forall b | b in s'.free + s'.live ensures Owns(s'.owner, b, s'.size[b]) {
      assert Owns(s.owner, p, s.size[p]) && Owns(s.owner, q, s.size[q]) && Owns(s.owner, b, s.size[b]);
      OwnsAfterJoin(s, p, q, b);
    }
    forall u | u in s'.owner ensures base < u && InBlock(s', s'.owner[u], u) {
      assert InBlock(s, s.owner[u], u);
    }
  }

  lemma SpacedAfterJoin(base: int, s: Store, p: int, q: int)
    requires s.free <= s.ptr.Keys && Spaced(base, s.free, s.ptr, s.size)
    requires p in s.free && q in s.free && base < p && p + s.size[p] == q && (q < s.ptr[q] || s.ptr[q] == base)
    ensures Spaced(base, Joined(s, p, q).free, Joined(s, p, q).ptr, Joined(s, p, q).size)
  {
  }

  lemma JoinIsConsistent(base: int, s: Store, p: int, q: int)
    requires Consistent(base, s) && Seam(s, p) && q == s.ptr[p] && p != base
    ensures q in s.free && q in s.ptr && q in s.size && Consistent(base, Joined(s, p, q))
  {
    assert Succeeds(base, s.free, s.ptr, p) && Succeeds(base, s.free, s.ptr, q);
    RingAfterJoin(base, s, p, q);
    SpacedAfterJoin(base, s, p, q);
    PartitionedAfterJoin(base, s, p, q);
  }

  // ----- free, as a function of the heap

  /** First join with the block above, then with the one below. */
  ghost function JoinedAbove(s: Store, bp: int): Store {
    if Seam(s, bp) && s.ptr[bp] in s.ptr && s.ptr[bp] in s.size then Joined(s, bp, s.ptr[bp]) else s
  }

  ghost function Released(s: Store, p: int, bp: int): Store
    requires p in s.ptr
  {
    JoinedAbove(JoinedAbove(LinkedIn(s, p, bp), bp), p)
  }

  lemma SeamsAfterInsert(base: int, s: Store, p: int, bp: int, b: int)
    requires Sound(base, s) && Place(s, p, bp)
    ensures Seam(LinkedIn(s, p, bp), b) ==> b == p || b == bp
  {
    assert !Seam(s, b);
  }

  /** Joining leaves a seam only where there was one; at `p`, where its partner had one. */
  lemma SeamsAfterJoin(s: Store, p: int, q: int, b: int)
    requires p in s.size && q in s.size && q in s.ptr && q in s.free && s.size[q] >= 1
    requires p + s.size[p] == q
    ensures Seam(Joined(s, p, q), b) ==> Seam(s, if b == p then q else b)
  {
  }

  /** Joining at a block clears its seam and opens none. */
  lemma JoinClears(base: int, s: Store, p: int)
    requires Consistent(base, s) && p != base
    requires Seam(s, p) ==> !Seam(s, s.ptr[p])
    ensures Consistent(base, JoinedAbove(s, p)) && !Seam(JoinedAbove(s, p), p)
    ensures forall b | Seam(JoinedAbove(s, p), b) :: Seam(s, b)
  {
    if Seam(s, p) {
      var q := s.ptr[p];
      JoinIsConsistent(base, s, p, q);
      forall b | Seam(Joined(s, p, q), b) ensures Seam(s, b) && b != p {
        SeamsAfterJoin(s, p, q, b);
      }
    }
  }

  /** Two joins make good what linking a block in may have opened. */
  lemma TwoJoinsClear(base: int, s: Store, p: int, bp: int)
    requires Consistent(base, s) && bp != base && p < bp
    requires forall b | Seam(s, b) :: b == p || b == bp
    requires p == base ==> !Seam(s, p)
    ensures Sound(base, JoinedAbove(JoinedAbove(s, bp), p))
  {
    JoinClears(base, s, bp);
    if p != base {
      JoinClears(base, JoinedAbove(s, bp), p);
    }
  }

  /** Releasing a live block keeps the invariant. */
  lemma ReleasedIsSound(base: int, s: Store, p: int, bp: int)
    requires Sound(base, s) && Place(s, p, bp)
    ensures Sound(base, Released(s, p, bp))
  {
    var s1 := LinkedIn(s, p, bp);
    assert s.size[bp] >= 1 && bp in s.owner && base < bp && (p == base ==> s.size[p] == 0);
    InsertIsConsistent(base, s, p, bp);
    forall b | Seam(s1, b) ensures b == p || b == bp {
      SeamsAfterInsert(base, s, p, bp, b);
    }
    TwoJoinsClear(base, s1, p, bp);
  }

  /** What splicing a block in reads and assumes. */
  ghost predicate Spliceable(s: Store, p: int, bp: int) {
    && p in s.ptr && p in s.size && p in s.free && bp in s.size && p < bp && s.size[bp] >= 1
    && s.ptr[p] in s.ptr && s.ptr[p] in s.size && bp + s.size[bp] >= bp
  }

  lemma PlaceIsSpliceable(base: int, s: Store, p: int, bp: int)
    requires Sound(base, s) && Place(s, p, bp)
    ensures Spliceable(s, p, bp) && p in Released(s, p, bp).free
  {
    assert Succeeds(base, s.free, s.ptr, p);
  }

  /** The header updates of free: join upwards or not, then downwards or not. */
  method Splice(ptr: map<int, int>, size: map<int, int>, p: int, bp: int, ghost s: Store)
    returns (ptr': map<int, int>, size': map<int, int>)
    requires Spliceable(s, p, bp) && ptr == s.ptr && size == s.size
    ensures ptr' == Released(s, p, bp).ptr && size' == Released(s, p, bp).size
  {
    ptr', size' := ptr, size;
    ghost var s1 := LinkedIn(s, p, bp);
    if bp + size'[bp] == ptr'[p] {
      size' := size'[bp := size'[bp] + size'[ptr'[p]]];
      ptr' := ptr'[bp := ptr'[ptr'[p]]];
      assert Seam(s1, bp);
    } else {
      ptr' := ptr'[bp := ptr'[p]];
    }
    ghost var s2 := JoinedAbove(s1, bp);
    assert size' == s2.size && ptr'[p := bp] == s2.ptr && p in s2.free;
    if p + size'[p] == bp {
      size' := size'[p := size'[p] + size'[bp]];
      ptr' := ptr'[p := ptr'[bp]];
      assert Seam(s2, p);
    } else {
      ptr' := ptr'[p := bp];
    }
  }

  /** Releasing takes one block from the callers, loses no unit, and leaves a free block of its size. */
  lemma ReleasedKeeps(base: int, s: Store, p: int, bp: int) returns (big: int)
    requires Sound(base, s) && Place(s, p, bp)
    ensures var s' := Released(s, p, bp);
            && LiveSizes(s') == LiveSizes(s) - {bp}
            && s'.owner.Keys == s.owner.Keys
            && big in s'.free && big in s'.size && s'.size[big] >= s.size[bp]
  {
    PlaceIsSpliceable(base, s, p, bp);
    assert Succeeds(base, s.free, s.ptr, p);
    var s2 := JoinedAbove(LinkedIn(s, p, bp), bp);
    big := if Seam(s2, p) then p else bp;
  }

  // ----- malloc, as functions of the heap

  ghost function Units(b: int, n: int): (r: set<int>)
    ensures forall u :: u in r <==> b <= u < b + n
    decreases n
  {
    if n <= 0 then {} else Units(b, n - 1) + {b + n - 1}
  }

  /** A fresh range from the system becomes one live block. */
  ghost function Granted(s: Store, hp: int, n: int): Store {
    s.(size := s.size[hp := n], live := s.live + {hp}, owner := s.owner + (map u | u in Units(hp, n) :: hp))
  }

  ghost predicate Fresh(base: int, core: set<int>, hp: int, n: int) {
    base < hp && n >= 1 && forall u | hp <= u < hp + n :: u !in core
  }

  lemma HeadersOwnThemselves(base: int, s: Store)
    requires Sound(base, s)
    ensures forall b | b in s.live || (b in s.free && b != base) :: b in s.owner && s.owner[b] == b
  {
    forall b | b in s.live || (b in s.free && b != base) ensures b in s.owner && s.owner[b] == b {
      assert Owns(s.owner, b, s.size[b]);
    }
  }

  lemma GrantedIsSound(base: int, s: Store, hp: int, n: int)
    requires Sound(base, s) && Fresh(base, s.owner.Keys, hp, n)
    ensures Sound(base, Granted(s, hp, n))
    ensures hp !in s.free && hp !in s.live
    ensures LiveSizes(Granted(s, hp, n)) == LiveSizes(s)[hp := n]
  {
    hide Partitioned, Seam, Fresh;
    GrantedHeader(base, s, hp, n);
    forall b ensures !Seam(Granted(s, hp, n), b) {
      GrantedSeam(s, hp, n, b);
    }
    GrantedIsPartitioned(base, s, hp, n);
  }

  lemma GrantedHeader(base: int, s: Store, hp: int, n: int)
    requires Sound(base, s) && Fresh(base, s.owner.Keys, hp, n)
    ensures hp !in s.free && hp !in s.live && LiveSizes(Granted(s, hp, n)) == LiveSizes(s)[hp := n]
    ensures Spaced(base, s.free, s.ptr, Granted(s, hp, n).size)
  {
    hide Seam, Owns, InBlock;
    assert hp !in s.owner;
    HeadersOwnThemselves(base, s);
  }

  lemma GrantedSeam(s: Store, hp: int, n: int, b: int)
    requires !Seam(s, b) && hp !in s.free
    ensures !Seam(Granted(s, hp, n), b)
  {
  }

  lemma GrantedIsPartitioned(base: int, s: Store, hp: int, n: int)
    requires Partitioned(base, s) && Fresh(base, s.owner.Keys, hp, n) && hp !in s.free && hp !in s.live
    ensures Partitioned(base, Granted(s, hp, n))
  {
    var s' := Granted(s, hp, n);
    forall b | b in s'.free + s'.live ensures Owns(s'.owner, b, s'.size[b]) {
      assert b != hp ==> Owns(s.owner, b, s.size[b]);
    }
    forall u | u in s'.owner ensures base < u && InBlock(s', s'.owner[u], u) {
      assert u in s.owner ==> InBlock(s, s.owner[u], u);
    }
  }

  /** The whole free block `p`, with ring predecessor `prev`, becomes live. */
  ghost function Taken(s: Store, prev: int, p: int): Store
    requires p in s.ptr
  {
    s.(ptr := s.ptr[prev := s.ptr[p]], free := s.free - {p}, live := s.live + {p})
  }

  /** The last `n` units of the free block `p` become a live block. */
  ghost function Carved(s: Store, p: int, n: int): Store
    requires p in s.size
  {
    var h := p + s.size[p] - n;
    s.(size := s.size[p := s.size[p] - n][h := n], live := s.live + {h},
       owner := map u | u in s.owner :: if s.owner[u] == p && u >= h then h else s.owner[u])
  }

  lemma TakenIsSound(base: int, s: Store, prev: int, p: int)
    requires Sound(base, s) && prev in s.free && p in s.free && p != base && s.ptr[prev] == p
    ensures Sound(base, Taken(s, prev, p))
    ensures p !in s.live && prev in Taken(s, prev, p).free
  {
    assert Succeeds(base, s.free, s.ptr, prev) && Succeeds(base, s.free, s.ptr, p);
    var s' := Taken(s, prev, p);
    RingAfterTaking(base, s, prev, p);
    SpacedAfterTaking(base, s, prev, p);
    SeamsAfterTaking(base, s, prev, p);
    PartitionedAfterTaking(base, s, prev, p);
  }

  lemma SeamsAfterTaking(base: int, s: Store, prev: int, p: int)
    requires s.free <= s.ptr.Keys && Spaced(base, s.free, s.ptr, s.size) && forall b :: !Seam(s, b)
    requires prev in s.free && p in s.free && prev < p && s.ptr[prev] == p && (p < s.ptr[p] || s.ptr[p] == base)
    ensures forall b :: !Seam(Taken(s, prev, p), b)
  {
    forall b ensures !Seam(Taken(s, prev, p), b) {
      assert !Seam(s, b);
    }
  }

  lemma TakenKeeps(s: Store, prev: int, p: int)
    requires p in s.ptr && p in s.size
    ensures LiveSizes(Taken(s, prev, p)) == LiveSizes(s)[p := s.size[p]]
  {
  }

  lemma RingAfterTaking(base: int, s: Store, prev: int, p: int)
    requires Ring(base, s.free, s.ptr) && prev in s.free && p in s.free && base <= prev < p && s.ptr[prev] == p
    ensures Ring(base, Taken(s, prev, p).free, Taken(s, prev, p).ptr)
  {
    assert Succeeds(base, s.free, s.ptr, prev) && Succeeds(base, s.free, s.ptr, p);
    var s' := Taken(s, prev, p);
    forall b | b in s'.free ensures Succeeds(base, s'.free, s'.ptr, b) {
      assert Succeeds(base, s.free, s.ptr, b);
      NextAfterJoin(base, s.free, prev, p, s.ptr[p], b, s.ptr[b]);
    }
  }

  lemma SpacedAfterTaking(base: int, s: Store, prev: int, p: int)
    requires s.free <= s.ptr.Keys && Spaced(base, s.free, s.ptr, s.size)
    requires prev in s.free && p in s.free && prev < p && s.ptr[prev] == p && (p < s.ptr[p] || s.ptr[p] == base)
    ensures Spaced(base, Taken(s, prev, p).free, Taken(s, prev, p).ptr, s.size)
  {
  }

  lemma PartitionedAfterTaking(base: int, s: Store, prev: int, p: int)
    requires Partitioned(base, s) && p in s.free && p in s.ptr && s.size[p] >= 1
    ensures Partitioned(base, Taken(s, prev, p))
  {
    var s' := Taken(s, prev, p);
    assert s'.free + s'.live == s.free + s.live;
    forall u | u in s'.owner ensures base < u && InBlock(s', s'.owner[u], u) {
      assert InBlock(s, s.owner[u], u);
    }
  }

  lemma CarvedIsSound(base: int, s: Store, p: int, n: int)
    requires Sound(base, s) && p in s.free && 1 <= n < s.size[p]
    ensures Sound(base, Carved(s, p, n))
    ensures var h := p + s.size[p] - n;
            h !in s.live && LiveSizes(Carved(s, p, n)) == LiveSizes(s)[h := n]
  {
    hide Partitioned, Spaced, Seam;
    FreeHasSize(base, s, p);
    var h := p + s.size[p] - n;
    CarvedHeader(base, s, p, n);
    CarvedLive(base, s, p, n);
    SpacedAfterCarving(base, s, p, n, h);
    PartitionedAfterCarving(base, s, p, n, h);
  }

  lemma FreeHasSize(base: int, s: Store, p: int)
    requires Sound(base, s) && p in s.free
    ensures p in s.size && p in s.ptr
  {
  }

  /** The new header lies inside the block, so it is no header yet. */
  lemma CarvedHeader(base: int, s: Store, p: int, n: int)
    requires Sound(base, s) && p in s.free && 1 <= n < s.size[p]
    ensures var h := p + s.size[p] - n; h !in s.free && h !in s.live
  {
    hide Spaced, Seam;
    var h := p + s.size[p] - n;
    assert Owns(s.owner, p, s.size[p]);
    assert s.owner[h] == p;
    HeadersOwnThemselves(base, s);
  }

  lemma CarvedLive(base: int, s: Store, p: int, n: int)
    requires Sound(base, s) && p in s.free && 1 <= n < s.size[p] && p + s.size[p] - n !in s.free
    ensures LiveSizes(Carved(s, p, n)) == LiveSizes(s)[p + s.size[p] - n := n]
  {
    hide Spaced, Seam, Owns, InBlock;
  }

  lemma SpacedAfterCarving(base: int, s: Store, p: int, n: int, h: int)
    requires s.free <= s.ptr.Keys && Spaced(base, s.free, s.ptr, s.size) && forall b :: !Seam(s, b)
    requires p in s.free && 1 <= n < s.size[p] && h == p + s.size[p] - n && h !in s.free
    ensures Spaced(base, s.free, s.ptr, Carved(s, p, n).size) && forall b :: !Seam(Carved(s, p, n), b)
  {
    forall b ensures !Seam(Carved(s, p, n), b) {
      assert !Seam(s, b);
    }
  }

  lemma CarvedOwns(s: Store, p: int, n: int, h: int, b: int)
    requires p in s.free && p in s.size && 1 <= n < s.size[p] && h == p + s.size[p] - n
    requires h !in s.free && h !in s.live && b in s.free + s.live + {h} && b in Carved(s, p, n).size
    requires Owns(s.owner, p, s.size[p]) && (b != h ==> b in s.size && Owns(s.owner, b, s.size[b]))
    ensures Owns(Carved(s, p, n).owner, b, Carved(s, p, n).size[b])
  {
  }

  lemma CarvedInBlock(s: Store, p: int, n: int, h: int, u: int)
    requires p in s.free && p in s.size && 1 <= n < s.size[p] && h == p + s.size[p] - n && h !in s.free && h !in s.live
    requires u in s.owner && InBlock(s, s.owner[u], u)
    ensures InBlock(Carved(s, p, n), Carved(s, p, n).owner[u], u)
  {
  }

  lemma PartitionedAfterCarving(base: int, s: Store, p: int, n: int, h: int)
    requires Partitioned(base, s) && p in s.free && 1 <= n < s.size[p] && h == p + s.size[p] - n
    requires h !in s.free && h !in s.live
    ensures Partitioned(base, Carved(s, p, n))
  {
    hide Owns, InBlock;
    var s' := Carved(s, p, n);
    forall b | b in s'.free + s'.live ensures Owns(s'.owner, b, s'.size[b]) {
      CarvedOwns(s, p, n, h, b);
    }
    forall u | u in s'.owner ensures base < u && InBlock(s', s'.owner[u], u) {
      CarvedInBlock(s, p, n, h, u);
    }
  }

  // ----- the allocator

  ghost function Above(free: set<int>, p: int): set<int> {
    set x | x in free && x > p
  }

  lemma AboveShrinks(free: set<int>, p: int, q: int)
    requires q in free
    ensures p < q ==> Above(free, q) < Above(free, p)
  {
    assert p < q ==> q in Above(free, p) && q !in Above(free, q);
  }

  // ----- the allocator stays out of its callers' blocks

  /** Unit `u` lies in a block of `blocks`, behind its header. */
  ghost predicate Behind(blocks: map<int, int>, b: int, u: int) {
    b in blocks && b < u < b + blocks[b]
  }

  ghost predicate SameAt(m: map<int, int>, m': map<int, int>, u: int) {
    (u in m <==> u in m') && (u in m ==> m'[u] == m[u])
  }

  /** No header was written behind the header of any of these blocks. */
  ghost predicate Spared(ptr: map<int, int>, size: map<int, int>, ptr': map<int, int>, size': map<int, int>,
                         blocks: map<int, int>) {
    forall b, u | Behind(blocks, b, u) :: SameAt(ptr, ptr', u) && SameAt(size, size', u)
  }

  lemma SparedSame(s: Store, blocks: map<int, int>)
    ensures Spared(s.ptr, s.size, s.ptr, s.size, blocks)
  {
  }

  lemma SparedTrans(a: Store, b: Store, c: Store, blocks: map<int, int>)
    requires Spared(a.ptr, a.size, b.ptr, b.size, blocks) && Spared(b.ptr, b.size, c.ptr, c.size, blocks)
    ensures Spared(a.ptr, a.size, c.ptr, c.size, blocks)
  {
    hide Behind;
  }

  /** What lies behind a live block's header is no block's header. */
  lemma BehindIsNoHeader(base: int, s: Store, b: int, u: int)
    requires Sound(base, s) && Behind(LiveSizes(s), b, u)
    ensures u !in s.free && u !in s.live && u in s.owner && s.owner[u] == b
  {
    HeadersOwnThemselves(base, s);
    assert Owns(s.owner, b, s.size[b]);
  }

  lemma ReleasedSpares(base: int, s: Store, p: int, bp: int)
    requires Sound(base, s) && Place(s, p, bp)
    ensures var s' := Released(s, p, bp); Spared(s.ptr, s.size, s'.ptr, s'.size, LiveSizes(s) - {bp})
  {
    var s' := Released(s, p, bp);
    forall b, u | Behind(LiveSizes(s) - {bp}, b, u) ensures SameAt(s.ptr, s'.ptr, u) && SameAt(s.size, s'.size, u) {
      BehindIsNoHeader(base, s, b, u);
    }
  }

  lemma TakenSpares(base: int, s: Store, prev: int, p: int)
    requires Sound(base, s) && prev in s.free && p in s.ptr
    ensures Spared(s.ptr, s.size, Taken(s, prev, p).ptr, s.size, LiveSizes(s))
  {
    forall b, u | Behind(LiveSizes(s), b, u) ensures SameAt(s.ptr, Taken(s, prev, p).ptr, u) {
      BehindIsNoHeader(base, s, b, u);
    }
  }

  lemma CarvedSpares(base: int, s: Store, p: int, n: int)
    requires Sound(base, s) && p in s.free && 1 <= n < s.size[p]
    ensures Spared(s.ptr, s.size, s.ptr, Carved(s, p, n).size, LiveSizes(s))
  {
    var h := p + s.size[p] - n;
    assert Owns(s.owner, p, s.size[p]) && s.owner[h] == p;
    forall b, u | Behind(LiveSizes(s), b, u) ensures SameAt(s.size, Carved(s, p, n).size, u) {
      BehindIsNoHeader(base, s, b, u);
    }
  }

  lemma GrantedSpares(base: int, s: Store, hp: int, n: int)
    requires Sound(base, s) && Fresh(base, s.owner.Keys, hp, n)
    ensures Spared(s.ptr, s.size, s.ptr, Granted(s, hp, n).size, LiveSizes(s))
  {
    forall b, u | Behind(LiveSizes(s), b, u) ensures SameAt(s.size, Granted(s, hp, n).size, u) {
      BehindIsNoHeader(base, s, b, u);
    }
  }

  class Heap {
    const base: int
    var freep: Option<int>      // the source's null before the first malloc
    var ptr: map<int, int>
    var size: map<int, int>
    ghost var free: set<int>
    ghost var live: set<int>
    ghost var owner: map<int, int>

    ghost function Contents(): Store
      reads this
    {
      Store(ptr, size, free, live, owner)
    }

    /** The blocks handed out, with their sizes. */
    ghost function Blocks(): map<int, int>
      reads this
    {
      LiveSizes(Contents())
    }

    /** The units obtained from the system so far. */
    ghost function Core(): set<int>
      reads this
    {
      owner.Keys
    }

    ghost predicate Valid()
      reads this
    {
      match freep
      case None => live == {} && owner == map[]
      case Some(p) => p in free && Sound(base, Contents())
    }

    constructor (base: int)
      ensures Valid() && this.base == base && Blocks() == map[] && Core() == {}
    {
      this.base := base;
      freep := None;
      ptr, size := map[], map[];
      free, live, owner := {}, {}, map[];
    }

    /** The walk of free: from `freep` round the ring to the free block after which `bp` belongs. */
    method FindPlace(bp: int) returns (p: int)
      requires Valid() && freep.Some? && bp in live
      ensures Place(Contents(), p, bp)
    {
      p := freep.value;
      assert size[bp] >= 1 && bp in owner && base < bp;
      while !(bp > p && bp < ptr[p])
        invariant p in free
        decreases p > bp, Above(free, p)
      {
        assert Succeeds(base, free, ptr, p);
        if p >= ptr[p] && (bp > p || bp < ptr[p]) {
          break;
        }
        AboveShrinks(free, p, ptr[p]);
        p := ptr[p];
      }
    }

    method Free(ap: int)
      requires Valid() && ap - 1 in Blocks()
      modifies this
      ensures Valid() && freep.Some?
      ensures Place(old(Contents()), freep.value, ap - 1)
      ensures Contents() == Released(old(Contents()), freep.value, ap - 1)
      ensures Blocks() == old(Blocks()) - {ap - 1} && Core() == old(Core())
      ensures Spared(old(ptr), old(size), ptr, size, Blocks())
    {
      hide Spared, Sound, Released, Spliceable;
      var bp := ap - 1;
      var p := FindPlace(bp);
      ghost var s := Released(Contents(), p, bp);
      ReleasedIsSound(base, Contents(), p, bp);
      PlaceIsSpliceable(base, Contents(), p, bp);
      ghost var big := ReleasedKeeps(base, Contents(), p, bp);
      ReleasedSpares(base, Contents(), p, bp);
      ptr, size := Splice(ptr, size, p, bp, Contents());
      free, live, owner := s.free, s.live, s.owner;
      freep := Some(p);
      assert Contents() == s;
    }

    /** `brk` is what the system answers to a request for `CoreUnits(nu)` units. */
    method MoreCore(nu: nat, brk: Option<int>) returns (ok: bool, ghost big: int)
      requires Valid() && freep.Some? && nu >= 1
      requires brk.Some? ==> Fresh(base, Core(), brk.value, CoreUnits(nu))
      modifies this
      ensures Valid() && freep.Some? && Blocks() == old(Blocks())
      ensures ok == brk.Some?
      ensures !ok ==> Contents() == old(Contents())
      ensures ok ==> Core() == old(Core()) + Units(brk.value, CoreUnits(nu))
      ensures ok ==> big in free && big in size && size[big] >= nu
      ensures Spared(old(ptr), old(size), ptr, size, Blocks())
    {
      hide Spared, Sound, Released;
      big := 0;
      if brk.None? {
        SparedSame(Contents(), Blocks());
        return false, 0;
      }
      var n, hp := CoreUnits(nu), brk.value;
      ghost var s := Granted(Contents(), hp, n);
      GrantedIsSound(base, Contents(), hp, n);
      GrantedSpares(base, Contents(), hp, n);
      size := size[hp := n];
      live, owner := s.live, s.owner;
      assert Contents() == s;
      Free(hp + 1);
      assert Blocks() == old(Blocks());
      big := ReleasedKeeps(base, s, freep.value, hp);
      SparedTrans(old(Contents()), s, Contents(), Blocks());
      ok := true;
    }

    /** A large enough block is found: all of it or its tail goes to the caller. */
    method Allocate(prevp: int, p: int, nunits: nat) returns (ap: int)
      requires Valid() && freep.Some? && nunits >= 1
      requires prevp in free && p in free && prevp in ptr && ptr[prevp] == p && p in size && size[p] >= nunits
      modifies this
      ensures Valid() && freep == Some(prevp)
      ensures ap - 1 !in old(Blocks()) && Blocks() == old(Blocks())[ap - 1 := nunits]
      ensures Core() == old(Core())
      ensures ap - 1 == p + old(size)[p] - nunits
      ensures p in old(ptr) && Contents() == if old(size)[p] == nunits then Taken(old(Contents()), prevp, p)
                                             else Carved(old(Contents()), p, nunits)
      ensures Spared(old(ptr), old(size), ptr, size, old(Blocks()))
    {
      hide Spared, Sound;
      BaseIsEmpty(base, Contents(), p);
      if size[p] == nunits {
        ghost var s := Taken(Contents(), prevp, p);
        TakenIsSound(base, Contents(), prevp, p);
        TakenKeeps(Contents(), prevp, p);
        TakenSpares(base, Contents(), prevp, p);
        ptr := ptr[prevp := ptr[p]];
        free, live := s.free, s.live;
        assert Contents() == s;
        ap := p + 1;
      } else {
        ghost var s := Carved(Contents(), p, nunits);
        CarvedIsSound(base, Contents(), p, nunits);
        CarvedSpares(base, Contents(), p, nunits);
        var h := p + size[p] - nunits;
        size := size[p := size[p] - nunits][h := nunits];
        live, owner := s.live, s.owner;
        assert Contents() == s;
        ap := h + 1;
      }
      freep := Some(prevp);
    }

    /** The ring before any memory is obtained: `base` alone. */
    method Start()
      requires Valid() && freep.None?
      modifies this
      ensures Valid() && freep == Some(base) && Blocks() == old(Blocks()) && Core() == old(Core())
      ensures Spared(old(ptr), old(size), ptr, size, old(Blocks()))
    {
      ptr, size := ptr[base := base], size[base := 0];
      freep := Some(base);
      free := {base};
    }

    method Malloc(nbytes: nat, brk: Option<int>) returns (r: Option<int>)
      requires Valid()
      requires brk.Some? ==> Fresh(base, Core(), brk.value, CoreUnits(UnitsFor(nbytes)))
      modifies this
      ensures Valid()
      ensures r.None? ==> brk.None? && Blocks() == old(Blocks())
      ensures r.Some? ==> r.value - 1 !in old(Blocks()) && Blocks() == old(Blocks())[r.value - 1 := UnitsFor(nbytes)]
      ensures Core() == old(Core())
        || (brk.Some? && Core() == old(Core()) + Units(brk.value, CoreUnits(UnitsFor(nbytes))))
      ensures old(freep).Some? && (r.None? || Core() != old(Core())) ==> NoneFits(old(Contents()), UnitsFor(nbytes))
      ensures old(freep).Some? && r.Some? && Core() == old(Core()) ==>
        exists p :: FirstThatFits(old(Contents()), old(freep).value, p, UnitsFor(nbytes), r.value)
      ensures Spared(old(ptr), old(size), ptr, size, old(Blocks()))
    {
      hide NoneFits, Spared, Sound, LiveSizes;
      SparedSame(Contents(), Blocks());
      if freep.None? {
        Start();
      }
      ghost var s := Contents();
      r := FirstFit(UnitsFor(nbytes), brk);
      SparedTrans(old(Contents()), s, Contents(), old(Blocks()));
    }

    /** The loop of malloc: once round the ring, asking for more core when it comes back to `freep`. */
    method FirstFit(nunits: nat, brk: Option<int>) returns (r: Option<int>)
      requires Valid() && freep.Some? && nunits >= 1
      requires brk.Some? ==> Fresh(base, Core(), brk.value, CoreUnits(nunits))
      modifies this
      ensures Valid()
      ensures r.None? ==> brk.None? && Blocks() == old(Blocks())
      ensures r.Some? ==> r.value - 1 !in old(Blocks()) && Blocks() == old(Blocks())[r.value - 1 := nunits]
      ensures Core() == old(Core()) || (brk.Some? && Core() == old(Core()) + Units(brk.value, CoreUnits(nunits)))
      ensures r.None? || Core() != old(Core()) ==> NoneFits(old(Contents()), nunits)
      ensures r.Some? && Core() == old(Core()) ==>
        exists p :: FirstThatFits(old(Contents()), old(freep).value, p, nunits, r.value)
      ensures Spared(old(ptr), old(size), ptr, size, old(Blocks()))
    {
      hide NoneFits, Spared, Sound, Fresh, LiveSizes, TooSmall, Units, CoreUnits;
      var prevp := freep.value;
      FirstStep(base, Contents(), prevp, nunits);
      SparedSame(Contents(), Blocks());
      var p := ptr[prevp];
      ghost var grown, big := false, base;
      while true
        invariant Valid() && freep.Some?
        invariant prevp in free && prevp in ptr && p == ptr[prevp] && p in free && p in size
        invariant Blocks() == old(Blocks())
        invariant Spared(old(ptr), old(size), ptr, size, old(Blocks()))
        invariant !grown ==> Core() == old(Core()) && Contents() == old(Contents()) && freep == old(freep)
        invariant grown ==> NoneFits(old(Contents()), nunits)
        invariant grown ==> brk.Some? && Core() == old(Core()) + Units(brk.value, CoreUnits(nunits))
        invariant grown ==> big in free && big in size && size[big] >= nunits
        invariant TooSmall(Contents(), freep.value, p, nunits)
        decreases !grown, p > freep.value, Above(free, p)
      {
        if size[p] >= nunits {
          ghost var s := Contents();
          var ap := Allocate(prevp, p, nunits);
          SparedTrans(old(Contents()), s, Contents(), old(Blocks()));
          if grown {
            CoreGrows(base, old(Core()), brk.value, nunits);
          } else {
            assert FirstThatFits(old(Contents()), old(freep).value, p, nunits, ap);
          }
          return Some(ap);
        }
        if p == freep.value {
          AllTooSmall(Contents(), p, nunits);
          NotBig(Contents(), nunits, big);
          assert !grown;     // one request is enough
          var ok: bool;
          ghost var s := Contents();
          ok, big := MoreCore(nunits, brk);
          SparedTrans(old(Contents()), s, Contents(), old(Blocks()));
          if !ok {
            return None;
          }
          grown := true;
          p := freep.value;
          FirstStep(base, Contents(), p, nunits);
        } else {
          NextStep(base, Contents(), freep.value, p, nunits);
        }
        prevp := p;
        p := ptr[p];
      }
    }
  }

  function CoreUnits(nu: nat): nat {
    if nu < MORECORE_UNITS then MORECORE_UNITS else nu
  }

  /** Header-sized units for `nbytes`, one of them the header. */
  function UnitsFor(nbytes: nat): (n: nat)
    ensures (n - 1) * HEADER_BYTES >= nbytes && n >= 1
    ensures (n - 2) * HEADER_BYTES < nbytes || n == 1
  {
    (nbytes + HEADER_BYTES - 1) / HEADER_BYTES + 1
  }

  /** Every free block passed on the way round the ring from `from` to `p` is too small. */
  ghost predicate TooSmall(s: Store, from: int, p: int, n: int) {
    forall b | b in s.free && b in s.size && Passed(from, p, b) :: s.size[b] < n
  }

  /** The first free block behind `from` in the ring that is large enough, and the block cut from its end. */
  ghost predicate FirstThatFits(s: Store, from: int, p: int, n: int, ap: int) {
    p in s.free && p in s.size && s.size[p] >= n && TooSmall(s, from, p, n) && ap - 1 == p + s.size[p] - n
  }

  lemma CoreGrows(base: int, core: set<int>, brk: int, n: nat)
    requires Fresh(base, core, brk, CoreUnits(n))
    ensures core + Units(brk, CoreUnits(n)) != core
  {
    assert brk in Units(brk, CoreUnits(n));
  }

  ghost predicate Passed(from: int, p: int, b: int) {
    if p > from then from < b < p else b > from || b < p
  }

  lemma FirstStep(base: int, s: Store, from: int, n: int)
    requires Sound(base, s) && from in s.free
    ensures from in s.ptr && s.ptr[from] in s.free && s.ptr[from] in s.size && from in s.size
    ensures TooSmall(s, from, s.ptr[from], n)
  {
    assert Succeeds(base, s.free, s.ptr, from);
  }

  /** One step along the ring: never past the start, and passing only the block stepped from. */
  lemma StepPasses(base: int, free: set<int>, from: int, p: int, q: int, b: int)
    requires from in free && p in free && p != from && b in free && IsNext(base, free, p, q)
    requires base <= from && base <= b
    ensures Passed(from, q, b) ==> b == p || Passed(from, p, b)
    ensures q <= p ==> p > from
    ensures p < q && p < from ==> q <= from
  {
  }

  lemma NextStep(base: int, s: Store, from: int, p: int, n: int)
    requires Sound(base, s) && from in s.free && p in s.free && p != from && s.size[p] < n
    requires TooSmall(s, from, p, n)
    ensures p in s.ptr && s.ptr[p] in s.free && s.ptr[p] in s.size && p in s.size
    ensures TooSmall(s, from, s.ptr[p], n)
    ensures s.ptr[p] <= p ==> s.ptr[p] <= from < p
    ensures p < s.ptr[p] ==> (p < from ==> s.ptr[p] <= from) && Above(s.free, s.ptr[p]) < Above(s.free, p)
  {
    hide Partitioned, Seam, Above;
    var q := s.ptr[p];
    assert Succeeds(base, s.free, s.ptr, p);
    hide Passed;
    forall b | b in s.free && b in s.size && Passed(from, q, b) ensures s.size[b] < n {
      StepPasses(base, s.free, from, p, q, b);
    }
    StepPasses(base, s.free, from, p, q, p);
    AboveShrinks(s.free, p, q);
  }

  /** Back at the start, nothing in the ring is large enough. */
  lemma AllTooSmall(s: Store, from: int, n: int)
    requires TooSmall(s, from, from, n) && from in s.size && s.size[from] < n
    ensures NoneFits(s, n)
  {
  }

  /** No free block has `n` units. */
  ghost predicate NoneFits(s: Store, n: int) {
    forall b | b in s.free && b in s.size :: s.size[b] < n
  }

  lemma NotBig(s: Store, n: int, b: int)
    requires NoneFits(s, n)
    ensures b in s.free && b in s.size ==> s.size[b] < n
  {
  }

  lemma BaseIsEmpty(base: int, s: Store, p: int)
    requires Sound(base, s) && p in s.free && s.size[p] >= 1
    ensures p != base && p in s.ptr
  {
  }

  // ----- the free list says nothing about the past

  /** A unit the system granted is in no live block exactly when a free block owns it. */
  lemma OwnerKind(base: int, s: Store, t: Store, u: int)
    requires Sound(base, s) && Sound(base, t) && LiveSizes(s) == LiveSizes(t) && s.owner.Keys == t.owner.Keys
    requires u in s.owner && s.owner[u] in s.free
    ensures t.owner[u] in t.free && t.owner[u] in t.size && s.owner[u] in s.size
    ensures s.owner[u] <= u < s.owner[u] + s.size[s.owner[u]]
    ensures t.owner[u] <= u < t.owner[u] + t.size[t.owner[u]]
  {
    assert InBlock(s, s.owner[u], u) && InBlock(t, t.owner[u], u);
    var c := t.owner[u];
    assert c in t.live ==> c in LiveSizes(t);
    assert c in LiveSizes(s) ==> s.size[c] == LiveSizes(s)[c] && Owns(s.owner, c, s.size[c]);
  }

  lemma FreeBlockIsShared(base: int, s: Store, t: Store, b: int)
    requires Sound(base, s) && Sound(base, t) && LiveSizes(s) == LiveSizes(t) && s.owner.Keys == t.owner.Keys
    requires b in s.free
    ensures b in t.free && b in s.size && b in t.size && t.size[b] <= s.size[b]
  {
    if b != base {
      assert Owns(s.owner, b, s.size[b]);
      OwnerKind(base, s, t, b);
      var c := t.owner[b];
      assert Owns(t.owner, c, t.size[c]);
      if c < b {
        // the unit before b is free too, so a free block of s would end at b
        OwnerKind(base, t, s, b - 1);
        FreeBlocksApart(base, s, s.owner[b - 1], b);
        assert false;
      }
      if s.size[b] < t.size[b] {
        var e := b + s.size[b];
        OwnerKind(base, t, s, e);
        FreeBlocksApart(base, s, b, s.owner[e]);
        assert false;
      }
    }
  }

  /**
   The free list is determined by what is granted and what is live: two heaps that agree on those,
   whatever calls led to them, have the same free blocks, sizes and links.
   */
  lemma FreeListIsCanonical(base: int, s: Store, t: Store)
    requires Sound(base, s) && Sound(base, t) && LiveSizes(s) == LiveSizes(t) && s.owner.Keys == t.owner.Keys
    ensures s.free == t.free && s.free <= s.size.Keys && s.free <= t.size.Keys
    ensures s.free <= s.ptr.Keys && s.free <= t.ptr.Keys
    ensures forall b | b in s.free :: s.size[b] == t.size[b] && s.ptr[b] == t.ptr[b]
  {
    hide Sound;
    forall b | b in s.free ensures b in t.free && b in s.size && b in t.size && t.size[b] <= s.size[b] {
      FreeBlockIsShared(base, s, t, b);
    }
    forall b | b in t.free ensures b in s.free && b in s.size && b in t.size && s.size[b] <= t.size[b] {
      FreeBlockIsShared(base, t, s, b);
    }
    forall b | b in s.free ensures b in s.ptr && b in t.ptr && s.ptr[b] == t.ptr[b] {
      SameSuccessor(base, s, t, b);
    }
  }

  lemma SameSuccessor(base: int, s: Store, t: Store, b: int)
    requires Sound(base, s) && Sound(base, t) && s.free == t.free && b in s.free
    ensures b in s.ptr && b in t.ptr && s.ptr[b] == t.ptr[b]
  {
    hide Partitioned, Spaced, Seam;
    assert Succeeds(base, s.free, s.ptr, b) && Succeeds(base, t.free, t.ptr, b);
  }

  /** A block allocated without new core and freed again leaves the free list as it was. */
  method MallocThenFree(heap: Heap, nbytes: nat) returns (r: Option<int>)
    requires heap.Valid() && heap.freep.Some?
    modifies heap
    ensures heap.Valid() && heap.Blocks() == old(heap.Blocks())
    ensures r.Some? ==> heap.free == old(heap.free) && forall b | b in heap.free ::
              && b in heap.size && b in heap.ptr && b in old(heap.size) && b in old(heap.ptr)
              && heap.size[b] == old(heap.size)[b] && heap.ptr[b] == old(heap.ptr)[b]
  {
    hide Sound, LiveSizes, Released;
    r := heap.Malloc(nbytes, None);
    if r.Some? {
      assert heap.Blocks() - {r.value - 1} == old(heap.Blocks());
      heap.Free(r.value);
      FreeListIsCanonical(heap.base, old(heap.Contents()), heap.Contents());
    }
  }

  /** Whatever the callers write into their blocks, past the headers, the invariant stands. */
  lemma PayloadWritesAreHarmless(base: int, s: Store, ptr': map<int, int>, size': map<int, int>)
    requires Sound(base, s)
    requires s.free <= ptr'.Keys && s.free + s.live <= size'.Keys
    requires forall b | b in s.free :: ptr'[b] == s.ptr[b]
    requires forall b | b in s.free + s.live :: size'[b] == s.size[b]
    ensures Sound(base, s.(ptr := ptr', size := size'))
  {
    var s' := s.(ptr := ptr', size := size');
    forall b | b in s.free ensures Succeeds(base, s.free, ptr', b) {
      assert Succeeds(base, s.free, s.ptr, b);
    }
    forall b ensures !Seam(s', b) {
      assert !Seam(s, b);
    }
    forall u | u in s'.owner ensures base < u && InBlock(s', s'.owner[u], u) {
      assert InBlock(s, s.owner[u], u);
    }
  }
}
