/**
 One queue of the split virtqueue driver of libs/libvirtio/virtio.c (section 2.4 of VIRTIO 1.0):
 descriptors, the free chain threaded through them, the avail and used rings. The host is any device
 that takes published heads in ring order and completes taken heads in any order. Flags are booleans;
 ring indices are 16-bit and wrap.
 */
module Virtqueue {
  import opened Options
  import opened Chains
  import opened VirtRing

  /** A driver buffer; the lowest address bit asks for a host-writable descriptor. */
  datatype Buf = Buf(addr: nat, size: nat)

  /** The buffers of one request and the pointer by which its caller knows it. */
  datatype Request = Request(bufs: seq<Buf>, cookie: nat)

  datatype Desc = Desc(addr: nat, len: nat, next: bool, write: bool, indirect: bool, link: nat)

  datatype Used = Used(id: nat, len: nat)

  datatype Queue = Queue(
    num: nat, desc: seq<Desc>, freeNum: nat, freeHead: nat, freeTail: nat, lastUsed: nat, data: seq<Option<nat>>,
    availIdx: nat, availRing: seq<nat>, usedIdx: nat, usedRing: seq<Used>)

  /**
   What the queue's memory stands for: the free chain, the chain of each head in flight, the owner of
   each descriptor (its head, or none when free), the heads published but not taken by the host, those
   taken, and the completions the driver has not read. `tableOf` gives an indirect head's table, and
   `reqs` the request each head was published for.
   */
  datatype Shadow = Shadow(
    free: seq<nat>, chains: map<nat, seq<nat>>, owner: seq<Option<nat>>,
    posted: seq<nat>, taken: set<nat>, done: seq<Used>, hostIdx: nat, tableOf: map<nat, nat>, reqs: map<nat, Request>)

  // ----- chains of descriptors

  /** A descriptor describes a buffer to the host. */
  predicate Carries(d: Desc, b: Buf) {
    d.addr == b.addr - b.addr % 2 && d.len == b.size && d.write == (b.addr % 2 == 1) && !d.indirect
  }

  ghost predicate LinkOk(desc: seq<Desc>, c: seq<nat>, p: nat)
    requires p + 1 < |c|
  {
    c[p] < |desc| && desc[c[p]].link == c[p + 1]
  }

  ghost predicate Linked(desc: seq<Desc>, c: seq<nat>) {
    forall p | 0 <= p < |c| - 1 :: LinkOk(desc, c, p)
  }

  ghost predicate AllNext(desc: seq<Desc>, c: seq<nat>) {
    forall p | 0 <= p < |c| :: c[p] < |desc| && desc[c[p]].next
  }

  /** Exactly the last descriptor of the chain lacks the next flag. */
  ghost predicate Ended(desc: seq<Desc>, c: seq<nat>) {
    forall p | 0 <= p < |c| :: c[p] < |desc| && desc[c[p]].next == (p < |c| - 1)
  }

  ghost predicate CarriesAll(desc: seq<Desc>, c: seq<nat>, bufs: seq<Buf>) {
    |c| == |bufs| && forall p | 0 <= p < |c| :: c[p] < |desc| && Carries(desc[c[p]], bufs[p])
  }

  ghost predicate Agree(desc: seq<Desc>, desc': seq<Desc>, c: seq<nat>) {
    |desc'| == |desc| && forall p | 0 <= p < |c| :: c[p] < |desc| && desc'[c[p]] == desc[c[p]]
  }

  /** Only descriptors of `c` changed. */
  ghost predicate OnlyIn(desc: seq<Desc>, desc': seq<Desc>, c: seq<nat>) {
    |desc'| == |desc| && forall i: nat | i < |desc| && i !in c :: desc'[i] == desc[i]
  }

  lemma AgreeKeeps(desc: seq<Desc>, desc': seq<Desc>, c: seq<nat>, bufs: seq<Buf>)
    requires Agree(desc, desc', c)
    ensures Linked(desc, c) ==> Linked(desc', c)
    ensures AllNext(desc, c) ==> AllNext(desc', c)
    ensures Ended(desc, c) ==> Ended(desc', c)
    ensures CarriesAll(desc, c, bufs) ==> CarriesAll(desc', c, bufs)
  {
    hide Carries;
    if Linked(desc, c) {
      forall p | 0 <= p < |c| - 1 ensures LinkOk(desc', c, p) {
        assert LinkOk(desc, c, p);
      }
    }
  }

  /** Chains with different owners share no descriptor. */
  lemma OwnersApart(owner: seq<Option<nat>>, c: seq<nat>, o: Option<nat>, d: seq<nat>, o': Option<nat>)
    requires AllAt(owner, c, o) && AllAt(owner, d, o') && o != o'
    ensures forall p | 0 <= p < |d| :: d[p] !in c
  {
  }

  lemma StampOwned(owner: seq<Option<nat>>, c: seq<nat>, o: Option<nat>, o': Option<nat>)
    requires AllAt(owner, c, o)
    ensures AllAt(Restamp(owner, c, o'), c, o')
  {
  }

  lemma StampApart(owner: seq<Option<nat>>, c: seq<nat>, o: Option<nat>, d: seq<nat>, o': Option<nat>)
    requires AllAt(owner, d, o') && forall p | 0 <= p < |d| :: d[p] !in c
    ensures AllAt(Restamp(owner, c, o), d, o')
  {
  }

  lemma AgreeApart(desc: seq<Desc>, desc': seq<Desc>, c: seq<nat>, d: seq<nat>)
    requires OnlyIn(desc, desc', c) && forall p | 0 <= p < |d| :: d[p] < |desc| && d[p] !in c
    ensures Agree(desc, desc', d)
  {
  }

  lemma LinkedSlice(desc: seq<Desc>, c: seq<nat>, i: nat, j: nat)
    requires Linked(desc, c) && i <= j <= |c|
    ensures Linked(desc, c[i..j])
  {
    forall p | 0 <= p < j - i - 1 ensures LinkOk(desc, c[i..j], p) {
      assert LinkOk(desc, c, i + p);
    }
  }

  lemma LinkedJoin(desc: seq<Desc>, a: seq<nat>, b: seq<nat>)
    requires Linked(desc, a) && Linked(desc, b)
    requires a != [] && b != [] ==> a[|a| - 1] < |desc| && desc[a[|a| - 1]].link == b[0]
    ensures Linked(desc, a + b)
  {
    forall p | 0 <= p < |a + b| - 1 ensures LinkOk(desc, a + b, p) {
      if |a| <= p {
        assert LinkOk(desc, b, p - |a|);
      } else if p < |a| - 1 {
        assert LinkOk(desc, a, p);
      }
    }
  }

  // ----- the queue invariant

  ghost predicate Sized(q: Queue, s: Shadow) {
    && 1 <= q.num && U16 % q.num == 0
    && |q.desc| == |q.data| == |q.availRing| == |q.usedRing| == |s.owner| == q.num
    && q.availIdx < U16 && q.usedIdx < U16 && s.hostIdx < U16 && q.lastUsed < q.num
  }

  /** From `freeHead` to `freeTail` there are exactly `freeNum` free descriptors, linked in order. */
  ghost predicate FreeOk(q: Queue, s: Shadow) {
    && |s.free| == q.freeNum >= 1 && NoDup(s.free)
    && s.free[0] == q.freeHead && s.free[|s.free| - 1] == q.freeTail
    && AllAt(s.owner, s.free, None) && AllNext(q.desc, s.free) && Linked(q.desc, s.free)
  }

  /** The chain of head `h`: linked from `h`, ended, and carrying the buffers `h` was published with. */
  ghost predicate ChainOk(q: Queue, s: Shadow, h: nat)
    requires h in s.chains
  {
    var c := s.chains[h];
    && c != [] && c[0] == h && h < |q.desc| && NoDup(c) && AllAt(s.owner, c, Some(h)) && Linked(q.desc, c)
    && Ended(q.desc, c)
    && h in s.reqs && |s.reqs[h].bufs| >= 1
    && if h in s.tableOf then |c| == 1 && q.desc[h].indirect else CarriesAll(q.desc, c, s.reqs[h].bufs)
  }

  ghost predicate ChainsOk(q: Queue, s: Shadow) {
    forall h | h in s.chains :: ChainOk(q, s, h)
  }

  /** Free chain and in-flight chains cover all descriptors; each head in flight, and no other slot, has its cookie. */
  ghost predicate CoverOk(q: Queue, s: Shadow) {
    && (forall i | 0 <= i < |s.owner| :: if s.owner[i] == None then i in s.free
                                         else s.owner[i].value in s.chains && i in s.chains[s.owner[i].value])
    && s.tableOf.Keys <= s.chains.Keys && s.reqs.Keys == s.chains.Keys
    && (forall i | 0 <= i < |q.data| :: q.data[i] == if i in s.reqs then Some(s.reqs[i].cookie) else None)
  }

  ghost predicate IdsDiffer(done: seq<Used>) {
    forall i, j | 0 <= i < j < |done| :: done[i].id != done[j].id
  }

  /** Every head in flight is published, taken or completed, and only one of them. */
  ghost predicate StagesOk(s: Shadow) {
    && NoDup(s.posted) && IdsDiffer(s.done)
    && (forall k | 0 <= k < |s.posted| :: s.posted[k] in s.chains && s.posted[k] !in s.taken)
    && (forall h | h in s.taken :: h in s.chains)
    && (forall k | 0 <= k < |s.done| ::
         s.done[k].id in s.chains && s.done[k].id !in s.taken && s.done[k].id !in s.posted)
    && (forall h | h in s.chains :: h in s.taken || h in s.posted || InDone(s.done, h))
  }

  ghost predicate InDone(done: seq<Used>, h: nat) {
    exists k :: 0 <= k < |done| && done[k].id == h
  }

  /** The rings hold, in order, what the host has not taken and what the driver has not read. */
  ghost predicate RingsOk(q: Queue, s: Shadow)
    requires Sized(q, s)
  {
    && q.availIdx == (s.hostIdx + |s.posted|) % U16 && Holds(q.availRing, s.hostIdx, s.posted)
    && q.usedIdx % q.num == At(q.lastUsed, |s.done|, q.num) && Holds(q.usedRing, q.lastUsed, s.done)
  }

  ghost predicate QueueOk(q: Queue, s: Shadow) {
    Sized(q, s) && FreeOk(q, s) && CoverOk(q, s) && StagesOk(s) && RingsOk(q, s) && ChainsOk(q, s)
  }

  lemma HeadIsOwned(q: Queue, s: Shadow, h: nat)
    requires QueueOk(q, s) && h in s.chains
    ensures h < q.num && s.owner[h] == Some(h) && q.freeHead < q.num && s.owner[q.freeHead] == None
  {
    hide CoverOk, StagesOk, RingsOk, Linked, Ended, CarriesAll, AllNext, NoDup;
    assert ChainOk(q, s, h);
    assert s.chains[h][0] == h;
  }

  /** Chains in flight are disjoint from the free chain and from each other. */
  lemma ChainsDisjoint(q: Queue, s: Shadow, h: nat, g: nat)
    requires QueueOk(q, s) && h in s.chains && g in s.chains && g != h
    ensures forall p | 0 <= p < |s.chains[h]| :: s.chains[h][p] !in s.free && s.chains[h][p] !in s.chains[g]
  {
    hide CoverOk, StagesOk, RingsOk, Linked, Ended, CarriesAll, AllNext, NoDup, AllAt;
    assert ChainOk(q, s, h) && ChainOk(q, s, g);
    OwnersApart(s.owner, s.free, None, s.chains[h], Some(h));
    OwnersApart(s.owner, s.chains[g], Some(g), s.chains[h], Some(h));
  }

  /** Every descriptor is free or in one chain in flight, not both; exactly the heads have a cookie. */
  lemma EveryDescriptor(q: Queue, s: Shadow, i: nat)
    requires QueueOk(q, s) && i < q.num
    ensures i in s.free <==> !(exists h :: h in s.chains && i in s.chains[h])
    ensures forall h, g | h in s.chains && g in s.chains && i in s.chains[h] && i in s.chains[g] :: h == g
    ensures q.data[i].Some? <==> i in s.chains
    ensures |s.free| == q.freeNum && NoDup(s.free) && s.free[0] == q.freeHead && s.free[|s.free| - 1] == q.freeTail
  {
    hide StagesOk, RingsOk, Linked, Ended, CarriesAll, AllNext;
    forall h | h in s.chains && i in s.chains[h] ensures s.owner[i] == Some(h) {
      assert ChainOk(q, s, h);
    }
  }

  // ----- counting: one free descriptor bounds everything in flight

  lemma {:induction false} DistinctBelow(ids: seq<nat>, n: nat, spare: nat)
    requires NoDup(ids) && spare < n && forall k | 0 <= k < |ids| :: ids[k] < n && ids[k] != spare
    ensures |ids| < n
  {
    var all := Below(n);
    var mine := set k | 0 <= k < |ids| :: ids[k];
    DistinctCount(ids, mine);
    assert mine <= all - {spare};
    SubsetCount(mine, all - {spare});
  }

  ghost function Below(n: nat): (r: set<nat>)
    ensures |r| == n && forall i: nat :: i in r <==> i < n
  {
    if n == 0 then {} else Below(n - 1) + {n - 1}
  }

  lemma {:induction false} DistinctCount(ids: seq<nat>, mine: set<nat>)
    requires NoDup(ids) && mine == set k | 0 <= k < |ids| :: ids[k]
    ensures |mine| == |ids|
  {
    if |ids| > 0 {
      var last := |ids| - 1;
      var rest := set k | 0 <= k < last :: ids[..last][k];
      assert mine == rest + {ids[last]};
      DistinctCount(ids[..last], rest);
    }
  }

  lemma {:induction false} SubsetCount(a: set<nat>, b: set<nat>)
    requires a <= b
    ensures |a| <= |b|
  {
    if a != {} {
      var x :| x in a;
      SubsetCount(a - {x}, b - {x});
    }
  }

  ghost function Ids(done: seq<Used>): seq<nat> {
    seq(|done|, k requires 0 <= k < |done| => done[k].id)
  }

  /** Unread completions, and published heads, never fill the ring. */
  lemma RingsNeverFull(q: Queue, s: Shadow)
    requires QueueOk(q, s)
    ensures |s.done| < q.num && |s.posted| < q.num
  {
    hide CoverOk, RingsOk, ChainsOk;
    forall h | h in s.chains ensures h < q.num && h != q.freeHead {
      HeadIsOwned(q, s, h);
    }
    DistinctBelow(Ids(s.done), q.num, q.freeHead);
    DistinctBelow(s.posted, q.num, q.freeHead);
  }

  /** So the driver's test for "nothing new" is exact. */
  lemma PendingTestIsExact(q: Queue, s: Shadow)
    requires QueueOk(q, s)
    ensures q.lastUsed == q.usedIdx % q.num <==> s.done == []
  {
    hide FreeOk, CoverOk, StagesOk, ChainsOk, Holds;
    RingsNeverFull(q, s);
    ModShift(q.lastUsed, |s.done|, q.num);
  }

  // ----- the host

  /** The host takes the next published head; it finds it in the avail ring at its own index. */
  ghost function HostTook(s: Shadow): Shadow
    requires s.posted != []
  {
    s.(hostIdx := (s.hostIdx + 1) % U16, posted := s.posted[1..], taken := s.taken + {s.posted[0]})
  }

  lemma HostTakes(q: Queue, s: Shadow)
    requires QueueOk(q, s)
    ensures q.availIdx == s.hostIdx <==> s.posted == []
    ensures s.posted != [] ==> QueueOk(q, HostTook(s)) && q.availRing[s.hostIdx % q.num] == s.posted[0]
  {
    hide CoverOk, ChainsOk, FreeOk, StagesOk, Holds, At;
    RingsNeverFull(q, s);
    assert q.num <= U16;
    IndexGap(s.hostIdx, |s.posted|);
    if s.posted != [] {
      HostIndexOneOn(s.hostIdx, q.num);
      RingDrop(q.availRing, s.hostIdx, (s.hostIdx + 1) % U16, s.posted);
      SameUpToStages(q, s, HostTook(s));
      TookStages(s);
    }
  }

  /** Moving a head between stages changes nothing about the descriptors. */
  lemma SameUpToStages(q: Queue, s: Shadow, s': Shadow)
    requires FreeOk(q, s) && CoverOk(q, s) && ChainsOk(q, s)
    requires s' == s.(hostIdx := s'.hostIdx, posted := s'.posted, taken := s'.taken, done := s'.done)
    ensures FreeOk(q, s') && CoverOk(q, s') && ChainsOk(q, s')
  {
    forall h | h in s'.chains ensures ChainOk(q, s', h) {
      assert ChainOk(q, s, h);
    }
  }

  lemma TookStages(s: Shadow)
    requires StagesOk(s) && s.posted != []
    ensures StagesOk(HostTook(s))
  {
    var s' := HostTook(s);
    assert forall h | h in s.posted :: h == s.posted[0] || h in s'.posted;
  }

  /** The host completes head `h`, writing the next used slot. */
  ghost function Completed(q: Queue, h: nat, len: nat): Queue
    requires 1 <= q.num == |q.usedRing|
  {
    q.(usedRing := q.usedRing[q.usedIdx % q.num := Used(h, len)], usedIdx := (q.usedIdx + 1) % U16)
  }

  ghost function HostDone(s: Shadow, h: nat, len: nat): Shadow {
    s.(taken := s.taken - {h}, done := s.done + [Used(h, len)])
  }

  lemma HostCompletes(q: Queue, s: Shadow, h: nat, len: nat)
    requires QueueOk(q, s) && h in s.taken
    ensures QueueOk(Completed(q, h, len), HostDone(s, h, len))
  {
    hide CoverOk, ChainsOk, FreeOk, StagesOk, At, Holds;
    var q', s' := Completed(q, h, len), HostDone(s, h, len);
    RingsNeverFull(q, s);
    RingAppend(q.usedRing, q.lastUsed, s.done, Used(h, len));
    WrapKeepsSlot(q.usedIdx + 1, q.num);
    CompletedIdx(q.usedIdx, q.lastUsed, |s.done|, q.num);
    DoneStages(s, h, len);
    SameUpToStages(q, s, s');
    SameUpToUsed(q, q', s');
  }

  lemma CompletedIdx(usedIdx: nat, lastUsed: nat, k: nat, n: nat)
    requires n >= 1 && usedIdx % n == At(lastUsed, k, n)
    ensures (usedIdx + 1) % n == At(lastUsed, k + 1, n)
  {
    SlotStep(usedIdx, 1, n);
    SlotStep(lastUsed + k, 1, n);
  }

  lemma SameUpToUsed(q: Queue, q': Queue, s: Shadow)
    requires FreeOk(q, s) && CoverOk(q, s) && ChainsOk(q, s)
    requires q' == q.(usedRing := q'.usedRing, usedIdx := q'.usedIdx)
    ensures FreeOk(q', s) && CoverOk(q', s) && ChainsOk(q', s)
  {
    forall h | h in s.chains ensures ChainOk(q', s, h) {
      assert ChainOk(q, s, h);
    }
  }

  lemma DoneStages(s: Shadow, h: nat, len: nat)
    requires StagesOk(s) && h in s.taken
    ensures StagesOk(HostDone(s, h, len))
  {
    var s' := HostDone(s, h, len);
    assert s'.done[|s.done|].id == h;
    forall g | InDone(s.done, g) ensures InDone(s'.done, g) {
      var k :| 0 <= k < |s.done| && s.done[k].id == g;
      assert s'.done[k].id == g;
    }
  }
}
