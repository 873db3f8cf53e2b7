/** What the driver's two calls do to one queue: publishing a chain and reclaiming a completed one. */
module VirtSteps {
  import opened Options
  import opened Chains
  import opened VirtRing
  import opened Virtqueue

  // ----- publishing

  /** The first `n` free descriptors become the chain of their first. */
  ghost function Published(s: Shadow, n: nat, req: Request, table: Option<nat>): Shadow
    requires 1 <= n <= |s.free|
  {
    var h := s.free[0];
    s.(free := s.free[n..],
       chains := s.chains[h := s.free[..n]],
       owner := Restamp(s.owner, s.free[..n], Some(h)),
       posted := s.posted + [h],
       reqs := s.reqs[h := req],
       tableOf := if table.Some? then s.tableOf[h := table.value] else s.tableOf)
  }

  /** The queue after `n` descriptors left the free chain and their first was offered to the host. */
  ghost predicate Offered(q: Queue, q': Queue, s: Shadow, n: nat, cookie: nat) {
    && QueueOk(q, s) && 1 <= n < |s.free|
    && q' == q.(desc := q'.desc, freeNum := q.freeNum - n, freeHead := s.free[n],
                data := q.data[q.freeHead := Some(cookie)],
                availRing := q.availRing[q.availIdx % q.num := q.freeHead], availIdx := (q.availIdx + 1) % U16)
    && OnlyIn(q.desc, q'.desc, s.free[..n])
  }

  /** The first `n` free descriptors now describe `bufs`, directly or through a table. */
  ghost predicate Described(desc: seq<Desc>, c: seq<nat>, bufs: seq<Buf>, indirect: bool) {
    && c != [] && c[0] < |desc| && Linked(desc, c) && Ended(desc, c) && |bufs| >= 1
    && if indirect then |c| == 1 && desc[c[0]].indirect else CarriesAll(desc, c, bufs)
  }

  /** A slice of a duplicate-free chain shares nothing with the rest. */
  lemma FreeSplit(f: seq<nat>, n: nat)
    requires NoDup(f) && n <= |f|
    ensures NoDup(f[..n]) && NoDup(f[n..]) && forall p | 0 <= p < |f[n..]| :: f[n..][p] !in f[..n]
  {
  }

  lemma OfferedFree(q: Queue, s: Shadow, q': Queue, s': Shadow, n: nat, req: Request, table: Option<nat>)
    requires Offered(q, q', s, n, req.cookie) && s' == Published(s, n, req, table)
    ensures Sized(q', s') && FreeOk(q', s')
  {
    hide CoverOk, StagesOk, RingsOk, ChainsOk, Linked, OnlyIn, Agree;
    var c, f := s.free[..n], s.free[n..];
    assert |f| == |s.free| - n && f[0] == s.free[n] && f[|f| - 1] == s.free[|s.free| - 1];
    FreeSplit(s.free, n);
    assert forall p | 0 <= p < |f| :: f[p] == s.free[n + p];
    LinkedSlice(q.desc, s.free, n, |s.free|);
    assert s.free[n..|s.free|] == f;
    assert AllAt(s.owner, f, None) && AllNext(q.desc, f);
    StampApart(s.owner, c, Some(s.free[0]), f, None);
    AgreeApart(q.desc, q'.desc, c, f);
    hide NoDup, AllAt, AllNext;
    AgreeKeeps(q.desc, q'.desc, f, []);
  }

  lemma OfferedOld(q: Queue, s: Shadow, q': Queue, s': Shadow, n: nat, req: Request, table: Option<nat>, g: nat)
    requires Offered(q, q', s, n, req.cookie) && s' == Published(s, n, req, table) && g in s.chains
    ensures g in s'.chains && ChainOk(q', s', g) && q'.desc[g] == q.desc[g]
  {
    hide CoverOk, StagesOk, RingsOk, Linked, OnlyIn, Agree, Ended, AllNext, CarriesAll, NoDup;
    assert ChainOk(q, s, g);
    var c, d := s.free[..n], s.chains[g];
    assert AllAt(s.owner, c, None);
    OwnersApart(s.owner, c, None, d, Some(g));
    StampApart(s.owner, c, Some(s.free[0]), d, Some(g));
    AgreeApart(q.desc, q'.desc, c, d);
    HeadIsOwned(q, s, g);
    assert d[0] == g;
    AgreeAt(q.desc, q'.desc, d, 0);
    AgreeKeeps(q.desc, q'.desc, d, s.reqs[g].bufs);
  }

  lemma AgreeAt(desc: seq<Desc>, desc': seq<Desc>, c: seq<nat>, p: nat)
    requires Agree(desc, desc', c) && p < |c|
    ensures c[p] < |desc| == |desc'| && desc'[c[p]] == desc[c[p]]
  {
  }

  lemma OfferedNew(q: Queue, s: Shadow, q': Queue, s': Shadow, n: nat, req: Request, table: Option<nat>)
    requires Offered(q, q', s, n, req.cookie) && s' == Published(s, n, req, table)
    requires Described(q'.desc, s.free[..n], req.bufs, table.Some?)
    ensures q.freeHead !in s.chains && q.freeHead in s'.chains && ChainOk(q', s', q.freeHead)
  {
    hide StagesOk, RingsOk, Linked, OnlyIn, Ended, AllNext, CarriesAll, ChainsOk;
    var c, h := s.free[..n], s.free[0];
    assert h !in s.chains by {
      if h in s.chains {
        HeadIsOwned(q, s, h);
      }
    }
    FreeSplit(s.free, n);
    hide NoDup;
    assert AllAt(s.owner, c, None);
    StampOwned(s.owner, c, None, Some(h));
    assert h !in s.tableOf;
  }

  lemma OfferedCover(q: Queue, s: Shadow, q': Queue, s': Shadow, n: nat, req: Request, table: Option<nat>)
    requires Offered(q, q', s, n, req.cookie) && s' == Published(s, n, req, table) && q.freeHead !in s.chains
    ensures CoverOk(q', s')
  {
    hide StagesOk, RingsOk, Linked, OnlyIn, Ended, AllNext, CarriesAll, ChainsOk, NoDup, AllAt;
    var c, h := s.free[..n], s.free[0];
    assert s.free == c + s'.free && c[0] == h;
    forall i | 0 <= i < |s'.owner|
      ensures if s'.owner[i] == None then i in s'.free
              else s'.owner[i].value in s'.chains && i in s'.chains[s'.owner[i].value]
    {
      assert i in s.free <==> i in c || i in s'.free;
    }
    HeadOfFree(q, s);
  }

  lemma OfferedStages(q: Queue, s: Shadow, q': Queue, s': Shadow, n: nat, req: Request, table: Option<nat>)
    requires Offered(q, q', s, n, req.cookie) && s' == Published(s, n, req, table) && q.freeHead !in s.chains
    ensures StagesOk(s')
  {
    hide CoverOk, RingsOk, ChainsOk, OnlyIn, AllAt, Linked, AllNext;
    assert s'.posted[|s.posted|] == q.freeHead;
    assert forall g | g in s.posted :: g in s'.posted;
  }

  lemma OfferedRings(q: Queue, s: Shadow, q': Queue, s': Shadow, n: nat, req: Request, table: Option<nat>)
    requires Offered(q, q', s, n, req.cookie) && s' == Published(s, n, req, table) && Sized(q', s')
    ensures RingsOk(q', s')
  {
    hide CoverOk, StagesOk, ChainsOk, OnlyIn, FreeOk, Holds, At, Restamp;
    RingsNeverFull(q, s);
    HeadOfFree(q, s);
    assert q.num <= U16;
    IndexStep(s.hostIdx + |s.posted|);
    WrapKeepsSlot(s.hostIdx + |s.posted|, q.num);
    assert At(s.hostIdx, |s.posted|, q.num) == (s.hostIdx + |s.posted|) % q.num by {
      AtIs(s.hostIdx, |s.posted|, q.num);
    }
    RingAppend(q.availRing, s.hostIdx, s.posted, q.freeHead);
  }

  /** Publishing keeps the queue in order, with the new head's chain last in the avail ring. */
  lemma PublishOk(q: Queue, s: Shadow, q': Queue, s': Shadow, n: nat, req: Request, table: Option<nat>)
    requires Offered(q, q', s, n, req.cookie) && s' == Published(s, n, req, table)
    requires Described(q'.desc, s.free[..n], req.bufs, table.Some?)
    ensures QueueOk(q', s') && q.freeHead !in s.chains
    ensures forall g | g in s.chains :: g < |q.desc| == |q'.desc| && q'.desc[g] == q.desc[g]
  {
    hide CoverOk, StagesOk, RingsOk, OnlyIn, AllAt, Linked, AllNext, NoDup, ChainOk, Described, FreeOk, Restamp;
    assert q.freeHead == s.free[0] by {
      HeadOfFree(q, s);
    }
    OfferedNew(q, s, q', s', n, req, table);
    OfferedFree(q, s, q', s', n, req, table);
    OfferedCover(q, s, q', s', n, req, table);
    OfferedStages(q, s, q', s', n, req, table);
    OfferedRings(q, s, q', s', n, req, table);
    forall g | g in s.chains ensures g in s'.chains && ChainOk(q', s', g) && g < |q.desc| && q'.desc[g] == q.desc[g] {
      HeadIsOwned(q, s, g);
      OfferedOld(q, s, q', s', n, req, table, g);
    }
  }

  lemma AtIs(from: nat, k: nat, n: nat)
    requires n >= 1
    ensures At(from, k, n) == (from + k) % n
  {
  }

  lemma HeadOfFree(q: Queue, s: Shadow)
    requires QueueOk(q, s)
    ensures |s.free| >= 1 && q.freeHead == s.free[0] && q.freeHead < q.num
  {
  }

  // ----- reclaiming

  /** The first unread completion's chain goes to the end of the free chain. */
  ghost function Reclaimed(s: Shadow): Shadow
    requires s.done != [] && s.done[0].id in s.chains
  {
    var h := s.done[0].id;
    var c := s.chains[h];
    s.(free := s.free + c, chains := s.chains - {h}, owner := Restamp(s.owner, c, None), done := s.done[1..],
       tableOf := s.tableOf - {h}, reqs := s.reqs - {h})
  }

  /** The queue after the chain `c` of the completed head was appended to the free chain. */
  ghost predicate Returned(q: Queue, q': Queue, s: Shadow, h: nat, c: seq<nat>) {
    && QueueOk(q, s) && s.done != [] && s.done[0].id == h && h in s.chains && c == s.chains[h] != []
    && q' == q.(desc := q'.desc, freeNum := q.freeNum + |c|, freeTail := c[|c| - 1],
                lastUsed := (q.lastUsed + 1) % q.num, data := q.data[h := None])
    && Relinked(q.desc, q'.desc, q.freeTail, c)
  }

  /** The tail points at the chain, whose descriptors are linked and all marked as continuing. */
  ghost predicate Relinked(desc: seq<Desc>, desc': seq<Desc>, tail: nat, c: seq<nat>) {
    && tail < |desc| && c != []
    && OnlyIn(desc, desc', c + [tail]) && desc'[tail] == desc[tail].(link := c[0])
    && AllNext(desc', c) && Linked(desc', c)
  }

  lemma ReturnedFree(q: Queue, s: Shadow, q': Queue, s': Shadow, h: nat, c: seq<nat>)
    requires Returned(q, q', s, h, c) && s' == Reclaimed(s)
    ensures Sized(q', s') && FreeOk(q', s')
  {
    hide CoverOk, StagesOk, RingsOk, ChainsOk, ChainOk, Linked, AllNext, AllAt, NoDup, Relinked, Restamp, Sized;
    var f := s.free;
    ChainAlone(q, s, h);
    OwnersApart(s.owner, c, Some(h), f, None);
    JoinOwned(s.owner, f, c);
    JoinDistinct(f, c);
    ReturnedLinks(q.desc, q'.desc, f, c);
    SizeOfReturned(q, s, q', h, c);
  }

  lemma ChainAlone(q: Queue, s: Shadow, h: nat)
    requires ChainsOk(q, s) && h in s.chains
    ensures NoDup(s.chains[h]) && AllAt(s.owner, s.chains[h], Some(h))
  {
    assert ChainOk(q, s, h);
  }

  lemma JoinOwned(owner: seq<Option<nat>>, f: seq<nat>, c: seq<nat>)
    requires AllAt(owner, f, None) && forall p | 0 <= p < |c| :: c[p] < |owner|
    ensures AllAt(Restamp(owner, c, None), f + c, None)
  {
  }

  lemma JoinDistinct(f: seq<nat>, c: seq<nat>)
    requires NoDup(f) && NoDup(c) && forall p | 0 <= p < |f| :: f[p] !in c
    ensures NoDup(f + c)
  {
  }

  lemma SizeOfReturned(q: Queue, s: Shadow, q': Queue, h: nat, c: seq<nat>)
    requires Returned(q, q', s, h, c)
    ensures Sized(q', Reclaimed(s))
  {
    hide CoverOk, StagesOk, RingsOk, ChainsOk, FreeOk;
    HeadIsOwned(q, s, h);
  }

  lemma ReturnedLinks(desc: seq<Desc>, desc': seq<Desc>, f: seq<nat>, c: seq<nat>)
    requires f != [] && Relinked(desc, desc', f[|f| - 1], c) && Linked(desc, f) && AllNext(desc, f) && NoDup(f)
    requires forall p | 0 <= p < |f| :: f[p] !in c
    ensures AllNext(desc', f + c) && Linked(desc', f + c)
  {
    var tail, last := f[|f| - 1], |f| - 1;
    forall p | 0 <= p < last ensures f[p] < |desc| && desc'[f[p]] == desc[f[p]] {
      assert f[p] !in c + [tail];
    }
    forall p | 0 <= p < |f| - 1 ensures LinkOk(desc', f, p) {
      assert LinkOk(desc, f, p);
    }
    LinkedJoin(desc', f, c);
  }

  lemma ReturnedOld(q: Queue, s: Shadow, q': Queue, s': Shadow, h: nat, c: seq<nat>, g: nat)
    requires Returned(q, q', s, h, c) && s' == Reclaimed(s) && g in s'.chains
    ensures g in s.chains && ChainOk(q', s', g) && g < |q.desc| == |q'.desc| && q'.desc[g] == q.desc[g]
  {
    hide CoverOk, StagesOk, RingsOk, Linked, OnlyIn, Agree, Ended, AllNext, CarriesAll, NoDup;
    assert ChainOk(q, s, g) && ChainOk(q, s, h);
    var d := s.chains[g];
    OwnersApart(s.owner, c, Some(h), d, Some(g));
    OwnersApart(s.owner, s.free, None, d, Some(g));
    assert q.freeTail == s.free[|s.free| - 1];
    StampApart(s.owner, c, None, d, Some(g));
    AgreeApart(q.desc, q'.desc, c + [q.freeTail], d);
    assert d[0] == g;
    AgreeAt(q.desc, q'.desc, d, 0);
    AgreeKeeps(q.desc, q'.desc, d, s.reqs[g].bufs);
  }

  lemma ReturnedCover(q: Queue, s: Shadow, q': Queue, s': Shadow, h: nat, c: seq<nat>)
    requires Returned(q, q', s, h, c) && s' == Reclaimed(s)
    ensures CoverOk(q', s')
  {
    hide StagesOk, RingsOk, Linked, OnlyIn, Ended, AllNext, CarriesAll, NoDup, FreeOk, Relinked, LinkOk;
    assert ChainOk(q, s, h);
    assert c[0] == h;
    forall i | 0 <= i < |s'.owner|
      ensures if s'.owner[i] == None then i in s'.free
              else s'.owner[i].value in s'.chains && i in s'.chains[s'.owner[i].value]
    {
    }
  }

  lemma ReturnedStages(s: Shadow, s': Shadow)
    requires StagesOk(s) && s.done != [] && s.done[0].id in s.chains && s' == Reclaimed(s)
    ensures StagesOk(s')
  {
    hide Restamp;
    var h := s.done[0].id;
    forall k | 0 <= k < |s'.done| ensures s'.done[k] == s.done[k + 1] && s'.done[k].id != h {
    }
    forall g | g in s'.chains ensures g in s'.taken || g in s'.posted || InDone(s'.done, g) {
      if InDone(s.done, g) {
        var k :| 0 <= k < |s.done| && s.done[k].id == g;
        assert s'.done[k - 1].id == g;
      }
    }
  }

  lemma ReturnedRings(q: Queue, s: Shadow, q': Queue, s': Shadow, h: nat, c: seq<nat>)
    requires Returned(q, q', s, h, c) && s' == Reclaimed(s) && Sized(q', s')
    ensures RingsOk(q', s')
  {
    hide CoverOk, StagesOk, ChainsOk, FreeOk, Relinked, Holds, Restamp;
    DriverIndexOneOn(q.lastUsed, q.num);
    RingDrop(q.usedRing, q.lastUsed, q'.lastUsed, s.done);
    OneOnAt(q.lastUsed, q'.lastUsed, |s.done| - 1, q.num);
  }

  lemma OneOnAt(from: nat, from': nat, k: nat, n: nat)
    requires n >= 1 && OneOn(from, from', n)
    ensures At(from', k, n) == At(from, k + 1, n)
  {
  }

  /** Reclaiming keeps the queue in order. */
  lemma ReclaimOk(q: Queue, s: Shadow, q': Queue, s': Shadow, h: nat, c: seq<nat>)
    requires Returned(q, q', s, h, c) && s' == Reclaimed(s)
    ensures QueueOk(q', s')
    ensures forall g | g in s'.chains :: g in s.chains && g < |q.desc| == |q'.desc| && q'.desc[g] == q.desc[g]
  {
    hide CoverOk, StagesOk, RingsOk, ChainOk, FreeOk, Restamp, Relinked;
    ReturnedFree(q, s, q', s', h, c);
    ReturnedCover(q, s, q', s', h, c);
    ReturnedStages(s, s');
    ReturnedRings(q, s, q', s', h, c);
    forall g | g in s'.chains
      ensures ChainOk(q', s', g) && g in s.chains && g < |q.desc| == |q'.desc| && q'.desc[g] == q.desc[g]
    {
      ReturnedOld(q, s, q', s', h, c, g);
    }
  }
}
