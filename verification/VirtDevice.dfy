/**
 A virtio device driver over several queues that share a pool of indirect tables, after
 libs/libvirtio/virtio.c. Methods are the driver's calls and the host's moves; they may come in any
 order, so what they keep holds over every interleaving.
 */
module VirtDevice {
  import opened Options
  import opened Chains
  import opened VirtRing
  import opened Virtqueue
  import opened VirtSteps

  /** Descriptors in one indirect table: a 4 KiB page of 16-byte entries. */
  const TABLE := 256
  const DESC_SIZE := 16

  // ----- filling descriptors

  function Use(d: Desc, b: Buf): (r: Desc)
    ensures Carries(r, b) && r.next && r.link == d.link
  {
    d.(addr := b.addr - b.addr % 2, len := b.size, next := true, write := b.addr % 2 == 1, indirect := false)
  }

  /** The first `k` descriptors of the chain `f` carry `bufs`, still linked; no other descriptor changed. */
  ghost predicate FilledTo(desc: seq<Desc>, desc': seq<Desc>, f: seq<nat>, bufs: seq<Buf>, k: nat)
    requires k <= |f| && k <= |bufs|
  {
    && |desc'| == |desc|
    && (forall p | 0 <= p < k ::
         f[p] < |desc| && Carries(desc'[f[p]], bufs[p]) && desc'[f[p]].next && desc'[f[p]].link == desc[f[p]].link)
    && OnlyIn(desc, desc', f[..k])
  }

  lemma FillOne(desc: seq<Desc>, desc': seq<Desc>, f: seq<nat>, bufs: seq<Buf>, k: nat)
    requires NoDup(f) && k < |f| && k < |bufs| && f[k] < |desc| && FilledTo(desc, desc', f, bufs, k)
    ensures desc'[f[k]] == desc[f[k]]
    ensures FilledTo(desc, desc'[f[k] := Use(desc'[f[k]], bufs[k])], f, bufs, k + 1)
  {
    hide Use, Carries;
    assert f[k] !in f[..k];
    assert f[..k + 1] == f[..k] + [f[k]];
  }

  /** Clearing the next flag of the last one ends the chain. */
  lemma FillEnds(desc: seq<Desc>, desc': seq<Desc>, desc'': seq<Desc>, f: seq<nat>, bufs: seq<Buf>)
    requires 1 <= |bufs| <= |f| && NoDup(f) && Linked(desc, f) && FilledTo(desc, desc', f, bufs, |bufs|)
    requires var l := f[|bufs| - 1]; l < |desc'| && desc'' == desc'[l := desc'[l].(next := false)]
    ensures OnlyIn(desc, desc'', f[..|bufs|]) && Described(desc'', f[..|bufs|], bufs, false)
  {
    var c := f[..|bufs|];
    assert forall p | 0 <= p < |c| :: c[p] == f[p];
    forall p | 0 <= p < |c| - 1 ensures LinkOk(desc'', c, p) {
      assert LinkOk(desc, f, p);
    }
  }

  method SetDirect(desc: seq<Desc>, head: nat, bufs: seq<Buf>, ghost f: seq<nat>) returns (r: seq<Desc>, i: nat)
    requires 1 <= |bufs| < |f| && f[0] == head && NoDup(f) && Linked(desc, f) && AllNext(desc, f)
    ensures i == f[|bufs|] && OnlyIn(desc, r, f[..|bufs|]) && Described(r, f[..|bufs|], bufs, false)
  {
    hide NoDup, Use;
    i := head;
    r := desc;
    var count, vd := 0, head;
    while count < |bufs|
      invariant 0 <= count <= |bufs| && i == f[count] && FilledTo(desc, r, f, bufs, count)
      invariant count > 0 ==> vd == f[count - 1]
    {
      vd := i;
      FillOne(desc, r, f, bufs, count);
      assert LinkOk(desc, f, count);
      assert r[vd].next;
      r := r[vd := Use(r[vd], bufs[count])];
      i := r[vd].link;
      count := count + 1;
    }
    ghost var filled := r;
    r := r[vd := r[vd].(next := false)];
    FillEnds(desc, filled, r, f, bufs);
  }

  /** A table describes `bufs` from its first entry on. */
  ghost predicate TableHolds(table: seq<Desc>, bufs: seq<Buf>) {
    |bufs| <= |table| && Described(table, Range(|bufs|), bufs, false)
  }

  method SetTable(table: seq<Desc>, bufs: seq<Buf>) returns (r: seq<Desc>)
    requires 1 <= |bufs| <= |table|
    ensures |r| == |table| && TableHolds(r, bufs)
  {
    r := table;
    var i := 0;
    while i < |bufs|
      invariant 0 <= i <= |bufs| && |r| == |table|
      invariant forall p | 0 <= p < i :: Carries(r[p], bufs[p]) && r[p].next && r[p].link == p + 1
    {
      r := r[i := Use(r[i], bufs[i]).(link := i + 1)];
      i := i + 1;
    }
    r := r[i - 1 := r[i - 1].(next := false)];
    assert forall p | 0 <= p < |bufs| - 1 :: LinkOk(r, Range(|bufs|), p);
  }

  // ----- what the host finds

  /** Walk from entry `i` while the next flag is set, at most `fuel` entries. */
  ghost function Walk(desc: seq<Desc>, i: nat, fuel: nat): seq<Desc>
    decreases fuel
  {
    if fuel == 0 || i >= |desc| then []
    else if !desc[i].next then [desc[i]]
    else [desc[i]] + Walk(desc, desc[i].link, fuel - 1)
  }

  ghost predicate CarryAll(ds: seq<Desc>, bufs: seq<Buf>) {
    |ds| == |bufs| && forall p | 0 <= p < |ds| :: Carries(ds[p], bufs[p])
  }

  /** A walk of a chain from place `p` ends, and finds what the rest of the chain carries. */
  lemma {:induction false} WalkFindsChain(desc: seq<Desc>, c: seq<nat>, p: nat, fuel: nat, bufs: seq<Buf>)
    requires p < |c| == |bufs| && |c| - p <= fuel && Linked(desc, c) && Ended(desc, c) && CarriesAll(desc, c, bufs)
    ensures CarryAll(Walk(desc, c[p], fuel), bufs[p..])
    decreases |c| - p
  {
    hide Carries;
    assert c[p] < |desc|;
    if p < |c| - 1 {
      assert LinkOk(desc, c, p);
      WalkFindsChain(desc, c, p + 1, fuel - 1, bufs);
    }
  }

  // ----- the device

  /** The head that holds an indirect table. */
  datatype User = User(queue: nat, head: nat)

  /** The driver's memory together with what it stands for. */
  datatype World = World(queues: seq<Queue>, inUse: seq<bool>, tables: seq<seq<Desc>>, shadows: seq<Shadow>,
                         user: seq<Option<User>>)

  ghost predicate Distinct(paddr: seq<nat>) {
    forall s, t | 0 <= s < t < |paddr| :: paddr[s] != paddr[t]
  }

  /** Indirect tables that queue `i` holds. */
  ghost function Uses(user: seq<Option<User>>, i: nat): nat {
    if user == [] then 0 else Uses(user[..|user| - 1], i) + One(user[|user| - 1], i)
  }

  ghost function One(u: Option<User>, i: nat): nat {
    if u.Some? && u.value.queue == i then 1 else 0
  }

  ghost predicate Shaped(w: World, paddr: seq<nat>) {
    && |w.shadows| == |w.queues| && |w.inUse| == |w.tables| == |w.user| == |paddr| >= 1 && Distinct(paddr)
    && forall t | 0 <= t < |w.tables| :: |w.tables[t]| == TABLE && (w.inUse[t] <==> w.user[t].Some?)
  }

  ghost predicate QueuesOk(w: World) {
    |w.shadows| == |w.queues| && forall i | 0 <= i < |w.queues| :: QueueOk(w.queues[i], w.shadows[i])
  }

  /** Table `t` is held by the head it is recorded for. */
  ghost predicate UserOk(w: World, t: nat)
    requires t < |w.user|
  {
    w.user[t].Some? ==>
      var u := w.user[t].value;
      u.queue < |w.shadows| && u.head in w.shadows[u.queue].tableOf && w.shadows[u.queue].tableOf[u.head] == t
  }

  /** An indirect head names its own table, which describes its buffers. */
  ghost predicate HeadOk(w: World, paddr: seq<nat>, i: nat, h: nat)
    requires i < |w.shadows| && h in w.shadows[i].tableOf
  {
    var t, s := w.shadows[i].tableOf[h], w.shadows[i];
    && t < |w.user| == |w.tables| == |paddr| && w.user[t] == Some(User(i, h)) && h in s.reqs
    && i < |w.queues| && h < |w.queues[i].desc|
    && w.queues[i].desc[h].addr == paddr[t] && w.queues[i].desc[h].len == |s.reqs[h].bufs| * DESC_SIZE
    && TableHolds(w.tables[t], s.reqs[h].bufs)
  }

  ghost predicate HeadsOk(w: World, paddr: seq<nat>) {
    forall i, h | 0 <= i < |w.shadows| && h in w.shadows[i].tableOf :: HeadOk(w, paddr, i, h)
  }

  ghost predicate UsersOk(w: World) {
    forall t | 0 <= t < |w.user| :: UserOk(w, t)
  }

  /** Each queue's free descriptors and tables together never fall below the number of threads, or the queue's size. */
  ghost predicate Reserve(w: World) {
    forall i | 0 <= i < |w.queues| :: w.queues[i].freeNum + Uses(w.user, i) >= Lesser(|w.user|, w.queues[i].num)
  }

  ghost function Lesser(x: nat, y: nat): nat {
    if x < y then x else y
  }

  ghost predicate DeviceOk(w: World, paddr: seq<nat>) {
    Shaped(w, paddr) && QueuesOk(w) && UsersOk(w) && HeadsOk(w, paddr) && Reserve(w)
  }

  lemma {:induction false} UsesUpdate(user: seq<Option<User>>, t: nat, u: Option<User>, i: nat)
    requires t < |user|
    ensures Uses(user[t := u], i) + One(user[t], i) == Uses(user, i) + One(u, i)
  {
    var last := |user| - 1;
    var user' := user[t := u];
    if t == last {
      assert user'[..last] == user[..last];
    } else {
      assert user'[..last] == user[..last][t := u];
      UsesUpdate(user[..last], t, u, i);
    }
  }

  lemma {:induction false} UsesBound(user: seq<Option<User>>, i: nat)
    ensures Uses(user, i) <= |user|
    ensures (exists t :: 0 <= t < |user| && One(user[t], i) == 0) ==> Uses(user, i) < |user|
  {
    if user != [] {
      var last := |user| - 1;
      UsesBound(user[..last], i);
      if t :| 0 <= t < |user| && One(user[t], i) == 0 {
        if t < last {
          assert One(user[..last][t], i) == 0;
        }
      }
    }
  }

  /** A free table, or one held by another queue, leaves every queue as large as the threads a free descriptor. */
  lemma TableMeansDescriptor(w: World, i: nat, t: nat)
    requires Reserve(w) && i < |w.queues| && t < |w.user| && One(w.user[t], i) == 0
    ensures w.queues[i].num >= |w.user| ==>
      w.queues[i].freeNum + Uses(w.user, i) >= |w.user| && w.queues[i].freeNum >= 1
    ensures w.queues[i].freeNum >= 1 || Uses(w.user, i) >= w.queues[i].num
  {
    UsesBound(w.user, i);
  }

  /** Whatever head is in flight, the host finds exactly the buffers it was published with. */
  lemma HostFindsBuffers(w: World, paddr: seq<nat>, i: nat, h: nat)
    requires DeviceOk(w, paddr) && i < |w.queues| && h in w.shadows[i].chains
    ensures h in w.shadows[i].reqs && h < |w.queues[i].desc|
    ensures var d, bufs := w.queues[i].desc, w.shadows[i].reqs[h].bufs;
            if d[h].indirect then exists t :: 0 <= t < |paddr| && paddr[t] == d[h].addr
            else CarryAll(Walk(d, h, |d|), bufs)
    ensures var d, bufs := w.queues[i].desc, w.shadows[i].reqs[h].bufs;
            forall t | 0 <= t < |paddr| && d[h].indirect && paddr[t] == d[h].addr ::
              CarryAll(Walk(w.tables[t], 0, d[h].len / DESC_SIZE), bufs)
  {
    hide FreeOk, CoverOk, StagesOk, RingsOk, UsersOk, Reserve, Linked, Ended, AllAt, NoDup, Walk, CarryAll;
    var q, s := w.queues[i], w.shadows[i];
    assert QueueOk(q, s) && ChainOk(q, s, h);
    var c, bufs := s.chains[h], s.reqs[h].bufs;
    if h in s.tableOf {
      assert HeadOk(w, paddr, i, h);
      var t := s.tableOf[h];
      hide CarriesAll;
      WalkFindsChain(w.tables[t], Range(|bufs|), 0, |bufs|, bufs);
      assert bufs[0..] == bufs;
    } else {
      assert !q.desc[c[0]].indirect;
      ChainFits(q, s, h);
      WalkFindsChain(q.desc, c, 0, |q.desc|, bufs);
      assert bufs[0..] == bufs;
    }
  }

  lemma ChainFits(q: Queue, s: Shadow, h: nat)
    requires QueueOk(q, s) && h in s.chains
    ensures |s.chains[h]| < q.num == |q.desc|
  {
    hide CoverOk, StagesOk, RingsOk, Linked, Ended, CarriesAll, AllNext, NoDup;
    assert ChainOk(q, s, h);
    HeadIsOwned(q, s, h);
    DistinctBelow(s.chains[h], q.num, q.freeHead);
  }

  // ----- steps of the whole device

  /** Queue `i` moved on and no table changed hands. */
  ghost predicate Moved(w: World, w': World, i: nat) {
    && i < |w.queues| == |w.shadows| == |w'.queues| == |w'.shadows|
    && w' == w.(queues := w.queues[i := w'.queues[i]], shadows := w.shadows[i := w'.shadows[i]])
    && w'.queues[i].num == w.queues[i].num && QueueOk(w'.queues[i], w'.shadows[i])
  }

  /** Indirect head `h` of queue `i` is as it was. */
  ghost predicate HeadKept(w: World, w': World, i: nat, h: nat)
    requires i < |w.queues| == |w.shadows| && i < |w'.queues| == |w'.shadows|
  {
    var s, s' := w.shadows[i], w'.shadows[i];
    && h in s.tableOf && h in s'.tableOf && s'.tableOf[h] == s.tableOf[h]
    && (h in s.reqs ==> h in s'.reqs && s'.reqs[h] == s.reqs[h])
    && |w'.queues[i].desc| == |w.queues[i].desc|
    && (h < |w.queues[i].desc| ==> w'.queues[i].desc[h] == w.queues[i].desc[h])
  }

  lemma MovedOk(w: World, w': World, paddr: seq<nat>, i: nat)
    requires DeviceOk(w, paddr) && Moved(w, w', i)
    requires w'.shadows[i].tableOf.Keys == w.shadows[i].tableOf.Keys
    requires forall h | h in w.shadows[i].tableOf :: HeadKept(w, w', i, h)
    requires w'.queues[i].freeNum >= w.queues[i].freeNum || w'.queues[i].freeNum >= |paddr|
    ensures DeviceOk(w', paddr)
  {
    hide QueueOk, TableHolds, Distinct;
    forall t | 0 <= t < |w'.user| ensures UserOk(w', t) {
      assert UserOk(w, t);
    }
    forall j, h | 0 <= j < |w'.shadows| && h in w'.shadows[j].tableOf ensures HeadOk(w', paddr, j, h) {
      assert HeadOk(w, paddr, j, h);
    }
  }

  /** Table `t` passed to head `h` of queue `i`, or from it. */
  ghost predicate Passed(w: World, w': World, i: nat, h: nat, t: nat, take: bool) {
    && i < |w.queues| == |w.shadows| == |w'.queues| == |w'.shadows|
    && t < |w.user| == |w.inUse| == |w.tables| == |w'.tables|
    && w' == w.(queues := w.queues[i := w'.queues[i]], shadows := w.shadows[i := w'.shadows[i]],
                inUse := w.inUse[t := take], tables := w.tables[t := w'.tables[t]],
                user := w.user[t := if take then Some(User(i, h)) else None])
    && w'.queues[i].num == w.queues[i].num && QueueOk(w'.queues[i], w'.shadows[i])
    && (forall g | g in w.shadows[i].tableOf && g != h :: HeadKept(w, w', i, g))
  }

  lemma TakenOk(w: World, w': World, paddr: seq<nat>, i: nat, h: nat, t: nat)
    requires DeviceOk(w, paddr) && Passed(w, w', i, h, t, true) && w.user[t] == None && |w'.tables[t]| == TABLE
    requires w'.shadows[i].tableOf == w.shadows[i].tableOf[h := t] && h !in w.shadows[i].tableOf
    requires HeadOk(w', paddr, i, h)
    requires w'.queues[i].freeNum + 1 == w.queues[i].freeNum
    ensures DeviceOk(w', paddr)
  {
    hide QueueOk, TableHolds, Distinct, Uses;
    forall r | 0 <= r < |w'.user| ensures UserOk(w', r) {
      assert UserOk(w, r);
    }
    forall j, g | 0 <= j < |w'.shadows| && g in w'.shadows[j].tableOf ensures HeadOk(w', paddr, j, g) {
      if j != i || g != h {
        assert HeadOk(w, paddr, j, g);
      }
    }
    forall j | 0 <= j < |w'.queues|
      ensures w'.queues[j].freeNum + Uses(w'.user, j) >= Lesser(|w'.user|, w'.queues[j].num)
    {
      UsesUpdate(w.user, t, Some(User(i, h)), j);
    }
  }

  lemma GivenOk(w: World, w': World, paddr: seq<nat>, i: nat, h: nat, t: nat)
    requires DeviceOk(w, paddr) && Passed(w, w', i, h, t, false) && w.user[t] == Some(User(i, h))
    requires w'.tables == w.tables
    requires w'.shadows[i].tableOf == w.shadows[i].tableOf - {h}
    requires w'.queues[i].freeNum == w.queues[i].freeNum + 1
    ensures DeviceOk(w', paddr)
  {
    hide QueueOk, TableHolds, Distinct, Uses;
    forall r | 0 <= r < |w'.user| ensures UserOk(w', r) {
      assert UserOk(w, r) && UserOk(w, t);
    }
    forall j, g | 0 <= j < |w'.shadows| && g in w'.shadows[j].tableOf ensures HeadOk(w', paddr, j, g) {
      assert HeadOk(w, paddr, j, g);
      assert UserOk(w, t);
    }
    forall j | 0 <= j < |w'.queues|
      ensures w'.queues[j].freeNum + Uses(w'.user, j) >= Lesser(|w'.user|, w'.queues[j].num)
    {
      UsesUpdate(w.user, t, None, j);
    }
  }

  // ----- publishing a request

  /** The queue once `n` descriptors, rewritten in `desc`, are offered to the host under the old head. */
  function Offer(q: Queue, desc: seq<Desc>, n: nat, next: nat, cookie: nat): Queue
    requires n <= q.freeNum && q.freeHead < |q.data| && 1 <= q.num == |q.availRing|
  {
    q.(desc := desc, freeNum := q.freeNum - n, freeHead := next, data := q.data[q.freeHead := Some(cookie)],
       availRing := q.availRing[q.availIdx % q.num := q.freeHead], availIdx := (q.availIdx + 1) % U16)
  }

  lemma FreeFacts(q: Queue, s: Shadow)
    requires QueueOk(q, s)
    ensures |s.free| == q.freeNum >= 1 && s.free[0] == q.freeHead < q.num == |q.desc| == |q.data| == |q.availRing|
    ensures NoDup(s.free) && Linked(q.desc, s.free) && AllNext(q.desc, s.free)
    ensures s.tableOf.Keys <= s.chains.Keys && s.reqs.Keys == s.chains.Keys
  {
  }

  lemma DirectPublished(w: World, w': World, paddr: seq<nat>, i: nat, desc: seq<Desc>, next: nat, req: Request)
    requires DeviceOk(w, paddr) && i < |w.queues|
    requires var q, s, n := w.queues[i], w.shadows[i], |req.bufs|;
      && 1 <= n < |s.free| && next == s.free[n] && q.freeNum - n >= |paddr|
      && OnlyIn(q.desc, desc, s.free[..n]) && Described(desc, s.free[..n], req.bufs, false)
      && q.freeHead < |q.data| && 1 <= q.num == |q.availRing| && n <= q.freeNum
      && w' == w.(queues := w.queues[i := Offer(q, desc, n, next, req.cookie)],
                  shadows := w.shadows[i := Published(s, n, req, None)])
    ensures DeviceOk(w', paddr)
  {
    hide QueueOk, Described, OnlyIn, UsersOk, HeadsOk, Reserve;
    var q, s, n := w.queues[i], w.shadows[i], |req.bufs|;
    assert QueueOk(q, s);
    FreeFacts(q, s);
    PublishOk(q, s, w'.queues[i], w'.shadows[i], n, req, None);
    forall h | h in s.tableOf ensures HeadKept(w, w', i, h) {
      HeadIsOwned(q, s, h);
    }
    MovedOk(w, w', paddr, i);
  }

  /** The one ring descriptor of a request that went to a table. */
  function Indirect(d: Desc, address: nat, n: nat): Desc {
    d.(addr := address, len := n * DESC_SIZE, next := false, write := false, indirect := true)
  }

  lemma IndirectDescribed(desc: seq<Desc>, h: nat, address: nat, bufs: seq<Buf>)
    requires h < |desc| && |bufs| >= 1
    ensures var desc' := desc[h := Indirect(desc[h], address, |bufs|)];
      OnlyIn(desc, desc', [h]) && Described(desc', [h], bufs, true)
  {
  }

  lemma IndirectPublished(w: World, w': World, paddr: seq<nat>, i: nat, t: nat, table: seq<Desc>, req: Request)
    requires DeviceOk(w, paddr) && i < |w.queues| && t < |paddr| && !w.inUse[t]
    requires |table| == TABLE && TableHolds(table, req.bufs) && |req.bufs| >= 1
    requires var q, s := w.queues[i], w.shadows[i];
      && 1 < |s.free| && q.freeHead < |q.desc| == |q.data| && 1 <= q.num == |q.availRing| && 1 <= q.freeNum
      && var desc := q.desc[q.freeHead := Indirect(q.desc[q.freeHead], paddr[t], |req.bufs|)];
         w' == w.(queues := w.queues[i := Offer(q, desc, 1, s.free[1], req.cookie)],
                  shadows := w.shadows[i := Published(s, 1, req, Some(t))],
                  inUse := w.inUse[t := true], tables := w.tables[t := table],
                  user := w.user[t := Some(User(i, q.freeHead))])
    ensures DeviceOk(w', paddr)
  {
    hide QueueOk, Described, OnlyIn, UsersOk, HeadsOk, Reserve, TableHolds, Restamp;
    var q, s := w.queues[i], w.shadows[i];
    var h := q.freeHead;
    assert QueueOk(q, s);
    FreeFacts(q, s);
    assert s.free[..1] == [h];
    IndirectDescribed(q.desc, h, paddr[t], req.bufs);
    PublishOk(q, s, w'.queues[i], w'.shadows[i], 1, req, Some(t));
    forall g | g in s.tableOf && g != h ensures HeadKept(w, w', i, g) {
      HeadIsOwned(q, s, g);
    }
    assert HeadOk(w', paddr, i, h);
    TakenOk(w, w', paddr, i, h, t);
  }

  // ----- returning a chain

  /** Pointing the tail at the chain and reopening its last descriptor relinks the chain. */
  lemma RelinkOk(desc: seq<Desc>, desc': seq<Desc>, tail: nat, c: seq<nat>, l: Desc)
    requires c != [] && NoDup(c) && Linked(desc, c) && Ended(desc, c) && tail < |desc| && tail !in c && l.next
    requires var last := c[|c| - 1]; last < |desc| && desc' == desc[tail := desc[tail].(link := c[0])][last := l]
    ensures Relinked(desc, desc', tail, c)
  {
    forall p | 0 <= p < |c| - 1 ensures LinkOk(desc', c, p) {
      assert LinkOk(desc, c, p);
    }
  }

  /** What the driver needs of the first unread completion: its chain, apart from the free tail. */
  lemma CompletionFacts(q: Queue, s: Shadow)
    requires QueueOk(q, s) && s.done != []
    ensures q.lastUsed < |q.usedRing| && q.usedRing[q.lastUsed] == s.done[0] && q.freeTail < |q.desc|
    ensures q.desc[q.freeTail].next
    ensures var h := s.done[0].id;
      && h in s.chains && h in s.reqs && h < q.num == |q.desc| == |q.data| && q.data[h] == Some(s.reqs[h].cookie)
      && ChainOk(q, s, h) && q.freeTail !in s.chains[h]
  {
    hide Linked, Ended, CarriesAll, RingsOk, NoDup, IdsDiffer;
    FirstUnread(q, s);
    var h := s.done[0].id;
    assert ChainOk(q, s, h);
    OwnersApart(s.owner, s.chains[h], Some(h), s.free, None);
    assert s.free[|s.free| - 1] == q.freeTail;
  }

  lemma FirstUnread(q: Queue, s: Shadow)
    requires Sized(q, s) && RingsOk(q, s) && s.done != []
    ensures q.usedRing[q.lastUsed] == s.done[0]
  {
    ModShift(q.lastUsed, 0, q.num);
    assert At(q.lastUsed, 0, q.num) == q.lastUsed;
  }

  /** A chain of several descriptors names no table. */
  ghost predicate Plain(desc: seq<Desc>, c: seq<nat>) {
    |c| > 1 ==> forall p | 0 <= p < |c| :: c[p] < |desc| && !desc[c[p]].indirect
  }

  /** Pointing the tail at the completed head leaves its chain as the driver published it. */
  lemma TailPointed(q: Queue, s: Shadow, h: nat, desc: seq<Desc>)
    requires QueueOk(q, s) && s.done != [] && h == s.done[0].id && q.freeTail < |q.desc|
    requires desc == q.desc[q.freeTail := q.desc[q.freeTail].(link := h)]
    ensures h in s.chains && s.chains[h] != []
    ensures var c := s.chains[h];
      && c[0] == h && Linked(desc, c) && Ended(desc, c) && Plain(desc, c)
      && var last := c[|c| - 1];
      && last < |desc| == |q.desc| && desc[last] == q.desc[last] && (desc[last].indirect <==> h in s.tableOf)
      && (h in s.tableOf ==> last == h)
      && Relinked(q.desc, desc[last := Reopened(desc[last], q.freeHead)], q.freeTail, c)
  {
    hide QueueOk, Linked, Ended, NoDup, AllAt, CarriesAll, Relinked, Carries, Plain;
    CompletionFacts(q, s);
    var c := s.chains[h];
    var last := c[|c| - 1];
    assert Agree(q.desc, desc, c) && last < |desc| by {
      LastInRange(q.desc, c);
    }
    AgreeKeeps(q.desc, desc, c, s.reqs[h].bufs);
    if h !in s.tableOf {
      CarriedIsPlain(desc, c, s.reqs[h].bufs);
    } else {
      SingleIsPlain(desc, c);
    }
    RelinkOk(q.desc, desc[last := Reopened(desc[last], q.freeHead)], q.freeTail, c, Reopened(desc[last], q.freeHead));
  }

  lemma LastInRange(desc: seq<Desc>, c: seq<nat>)
    requires Ended(desc, c)
    ensures forall p | 0 <= p < |c| :: c[p] < |desc|
  {
  }

  lemma CarriedIsPlain(desc: seq<Desc>, c: seq<nat>, bufs: seq<Buf>)
    requires CarriesAll(desc, c, bufs) && c != []
    ensures Plain(desc, c) && c[|c| - 1] < |desc| && !desc[c[|c| - 1]].indirect
  {
  }

  lemma SingleIsPlain(desc: seq<Desc>, c: seq<nat>)
    requires |c| == 1
    ensures Plain(desc, c)
  {
  }

  lemma SameTable(paddr: seq<nat>, t: nat, r: nat)
    requires Distinct(paddr) && t < |paddr| && r < |paddr| && paddr[t] == paddr[r]
    ensures t == r
  {
  }

  /** The queue once the chain ending at `last` is back on the free chain. */
  function Collect(q: Queue, desc: seq<Desc>, count: nat, last: nat, h: nat): Queue
    requires h < |q.data| && q.num >= 1
  {
    q.(desc := desc, freeNum := q.freeNum + count, freeTail := last, lastUsed := (q.lastUsed + 1) % q.num,
      data := q.data[h := None])
  }

  /** Last descriptor of a returned chain: open again, pointing at the free head, no table named. */
  function Reopened(d: Desc, head: nat): (r: Desc)
    ensures r.next
  {
    d.(link := head, next := true, write := false, indirect := false, len := if d.indirect then 0 else d.len)
  }

  lemma Collected(w: World, w': World, paddr: seq<nat>, i: nat, desc: seq<Desc>)
    requires DeviceOk(w, paddr) && i < |w.queues| && w.shadows[i].done != []
    requires var q, s := w.queues[i], w.shadows[i];
      var h := s.done[0].id;
      && h in s.chains && h < |q.data| && s.chains[h] != [] && Relinked(q.desc, desc, q.freeTail, s.chains[h])
      && q.num >= 1
      && var c := s.chains[h];
      && w'.queues == w.queues[i := Collect(q, desc, |c|, c[|c| - 1], h)]
      && w'.shadows == w.shadows[i := Reclaimed(s)] && w'.tables == w.tables
      && if h in s.tableOf then
           var t := s.tableOf[h];
           t < |w.user| == |w.inUse| && w'.user == w.user[t := None] && w'.inUse == w.inUse[t := false]
         else w'.user == w.user && w'.inUse == w.inUse
    ensures DeviceOk(w', paddr)
  {
    hide QueueOk, UsersOk, Reserve, Relinked, Restamp;
    var q, s := w.queues[i], w.shadows[i];
    var h := s.done[0].id;
    var c := s.chains[h];
    assert QueueOk(q, s);
    FreeFacts(q, s);
    ReclaimOk(q, s, w'.queues[i], w'.shadows[i], h, c);
    forall g | g in s.tableOf && g != h ensures HeadKept(w, w', i, g) {
      HeadIsOwned(q, s, g);
    }
    if h in s.tableOf {
      assert HeadOk(w, paddr, i, h);
      CompletionFacts(q, s);
      hide HeadOk, HeadsOk;
      GivenOk(w, w', paddr, i, h, s.tableOf[h]);
    } else {
      hide HeadsOk;
      assert w'.shadows[i].tableOf.Keys == s.tableOf.Keys;
      MovedOk(w, w', paddr, i);
    }
  }

  method FindEnd(desc: seq<Desc>, head: nat, ghost c: seq<nat>) returns (idx: nat, count: nat)
    requires c != [] && c[0] == head && Linked(desc, c) && Ended(desc, c)
    requires Plain(desc, c)
    ensures idx == c[|c| - 1] && count == |c|
  {
    idx, count := head, 0;
    while desc[idx].next
      invariant count < |c| && idx == c[count] && idx < |desc|
      decreases |c| - count
    {
      assert LinkOk(desc, c, count);
      assert !desc[idx].indirect;
      idx := desc[idx].link;
      count := count + 1;
    }
    count := count + 1;
  }

  datatype Outcome = Done | Panic

  class Device {
    const paddr: seq<nat>
    var queues: seq<Queue>
    var inUse: seq<bool>
    var tables: seq<seq<Desc>>
    ghost var shadows: seq<Shadow>
    ghost var user: seq<Option<User>>

    ghost function Now(): World
      reads this
    {
      World(queues, inUse, tables, shadows, user)
    }

    ghost predicate Valid()
      reads this
    {
      DeviceOk(Now(), paddr)
    }

    /** As many table addresses as threads; queues as initialised. */
    constructor (qs: seq<Queue>, addresses: seq<nat>)
      requires |addresses| >= 1 && Distinct(addresses)
      requires forall i | 0 <= i < |qs| :: QueueOk(qs[i], Idle(qs[i].num)) && qs[i].freeNum == qs[i].num
      ensures Valid() && queues == qs && paddr == addresses
      ensures |inUse| == |addresses| && forall t | 0 <= t < |inUse| :: !inUse[t]
      ensures shadows == seq(|qs|, i requires 0 <= i < |qs| => Idle(qs[i].num))
    {
      paddr := addresses;
      queues := qs;
      inUse := seq(|addresses|, i => false);
      tables := seq(|addresses|, i => seq(TABLE, j => Desc(0, 0, false, false, false, 0)));
      shadows := seq(|qs|, i requires 0 <= i < |qs| => Idle(qs[i].num));
      user := seq(|addresses|, i => None);
      new;
    }

    method FindTable(address: nat) returns (t: nat)
      ensures t <= |paddr| && (t < |paddr| ==> paddr[t] == address) && forall r | 0 <= r < t :: paddr[r] != address
    {
      t := 0;
      while t < |paddr| && paddr[t] != address
        invariant t <= |paddr| && forall r | 0 <= r < t :: paddr[r] != address
      {
        t := t + 1;
      }
    }

    method FindFreeTable() returns (t: nat)
      requires |inUse| == |paddr|
      ensures t <= |paddr| && (t < |paddr| ==> !inUse[t]) && forall r | 0 <= r < t :: inUse[r]
    {
      t := 0;
      while t < |paddr| && inUse[t]
        invariant t <= |paddr| && forall r | 0 <= r < t :: inUse[r]
      {
        t := t + 1;
      }
    }

    /**
     Publish a request on queue `i`: through the ring when enough descriptors stay free for the other
     threads, through a table otherwise. The invariant stays unless that takes the last free descriptor.
     */
    method ToQueue(i: nat, bufs: seq<Buf>, data: Option<nat>) returns (r: Outcome, ghost table: Option<nat>)
      requires Valid() && i < |queues| && |bufs| >= 1 && (queues[i].freeNum - |bufs| < |paddr| ==> |bufs| <= TABLE)
      modifies this
      ensures Valid() <==> r == Panic || table.None? || old(queues[i].freeNum) >= 2
      ensures r == Panic <==>
              data.None? || (old(queues[i].freeNum) - |bufs| < |paddr| && forall t | 0 <= t < |paddr| :: old(inUse)[t])
      ensures r == Panic ==> Now() == old(Now())
      ensures |queues| == |old(queues)|
      ensures r == Done ==> (table.Some? <==> old(queues[i].freeNum) - |bufs| < |paddr|)
      ensures r == Done ==> var n := if table.Some? then 1 else |bufs|;
              && n <= |old(shadows[i]).free| && queues[i].freeTail < |queues[i].desc|
              && (queues[i].desc[queues[i].freeTail].next <==> n < old(queues[i].freeNum))
              && shadows == old(shadows)[i := Published(old(shadows[i]), n, Request(bufs, data.value), table)]
    {
      hide QueueOk, UsersOk, HeadsOk, Reserve, Described, TableHolds, OnlyIn, Published;
      r, table := Panic, None;
      ghost var w := Now();
      var q := queues[i];
      ghost var s := shadows[i];
      assert QueueOk(q, s);
      FreeFacts(q, s);
      if data.None? {
        return;
      }
      ghost var req := Request(bufs, data.value);
      if q.freeNum - |bufs| < |paddr| {
        var t := FindFreeTable();
        if t == |paddr| {
          return;
        }
        inUse := inUse[t := true];
        var vd := q.freeHead;
        var desc := q.desc[vd := Indirect(q.desc[vd], paddr[t], |bufs|)];
        var filled := SetTable(tables[t], bufs);
        tables := tables[t := filled];
        queues := queues[i := Offer(q, desc, 1, desc[vd].link, data.value)];
        table := Some(t);
        user := user[t := Some(User(i, vd))];
        shadows := shadows[i := Published(s, 1, req, table)];
        IndirectDescribed(q.desc, vd, paddr[t], bufs);
        assert s.free[..1] == [vd];
        TailUsableIff(q, s, desc, 1, bufs, true);
        if q.freeNum >= 2 {
          assert LinkOk(q.desc, s.free, 0);
          IndirectPublished(w, Now(), paddr, i, t, filled, req);
        } else {
          NoneLeft(queues[i], shadows[i]);
        }
      } else {
        var desc, next := SetDirect(q.desc, q.freeHead, bufs, s.free);
        TailUsableIff(q, s, desc, |bufs|, bufs, false);
        queues := queues[i := Offer(q, desc, |bufs|, next, data.value)];
        shadows := shadows[i := Published(s, |bufs|, req, None)];
        DirectPublished(w, Now(), paddr, i, desc, next, req);
      }
      r := Done;
    }

    /** Read the next completion of queue `i`, if any, and return its descriptors to the free chain. */
    method FromQueue(i: nat) returns (r: Option<(nat, nat)>)
      requires Valid() && i < |queues|
      modifies this
      ensures Valid()
      ensures r.None? <==> old(shadows[i]).done == []
      ensures r.None? ==> Now() == old(Now())
      ensures r.Some? ==>
              && var s := old(shadows[i]);
              && var u := s.done[0];
              && u.id in s.chains && u.id in s.reqs && r.value == (s.reqs[u.id].cookie, u.len)
              && shadows == old(shadows)[i := Reclaimed(s)]
    {
      hide QueueOk, UsersOk, Reserve, Relinked, Reclaimed, HeadsOk, Linked, Ended, Plain, Distinct, ChainOk,
           TableHolds;
      ghost var w := Now();
      var q := queues[i];
      ghost var s := shadows[i];
      assert QueueOk(q, s);
      PendingTestIsExact(q, s);
      UsedFits(q, s);
      if q.lastUsed == q.usedIdx % q.num {
        return None;
      }
      CompletionFacts(q, s);
      var uel := q.usedRing[q.lastUsed];
      SmallMod(uel.id, q.num);
      var head := uel.id % q.num;
      assert q.data[head].Some? && q.desc[q.freeTail].next;
      var desc := q.desc[q.freeTail := q.desc[q.freeTail].(link := head)];
      TailPointed(q, s, head, desc);
      var idx, count := FindEnd(desc, head, s.chains[head]);
      if desc[idx].indirect {
        assert HeadOk(w, paddr, i, head) by {
          HeadsAt(w, paddr, i, head);
        }
        var t := FindTable(desc[idx].addr);
        assert t <= s.tableOf[head];
        SameTable(paddr, t, s.tableOf[head]);
        assert inUse[t];
        inUse := inUse[t := false];
        user := user[t := None];
      }
      desc := desc[idx := Reopened(desc[idx], q.freeHead)];
      queues := queues[i := Collect(q, desc, count, idx, uel.id)];
      shadows := shadows[i := Reclaimed(s)];
      Collected(w, Now(), paddr, i, desc);
      r := Some((q.data[uel.id].value, uel.len));
    }

    /** The host, at its own index, reads the next head from the avail ring of queue `i`. */
    method HostTake(i: nat, hostIdx: nat) returns (h: nat)
      requires Valid() && i < |queues| && hostIdx == shadows[i].hostIdx != queues[i].availIdx
      modifies this`shadows
      ensures old(shadows[i]).posted != [] && Valid() && h == old(shadows[i]).posted[0]
      ensures shadows == old(shadows)[i := HostTook(old(shadows[i]))]
    {
      hide QueueOk, UsersOk, Reserve, HeadsOk;
      ghost var w := Now();
      var q := queues[i];
      ghost var s := shadows[i];
      assert QueueOk(q, s);
      HostTakes(q, s);
      UsedFits(q, s);
      h := q.availRing[hostIdx % q.num];
      shadows := shadows[i := HostTook(s)];
      MovedOk(w, Now(), paddr, i);
    }

    /** The host completes any head it has taken from queue `i`. */
    method HostComplete(i: nat, h: nat, len: nat)
      requires Valid() && i < |queues| && h in shadows[i].taken
      modifies this`shadows, this`queues
      ensures Valid() && shadows == old(shadows)[i := HostDone(old(shadows[i]), h, len)]
    {
      hide QueueOk, UsersOk, Reserve, HeadsOk;
      ghost var w := Now();
      var q := queues[i];
      ghost var s := shadows[i];
      assert QueueOk(q, s);
      RingsNeverFull(q, s);
      UsedFits(q, s);
      HostCompletes(q, s, h, len);
      queues := queues[i := q.(usedRing := q.usedRing[q.usedIdx % q.num := Used(h, len)],
        usedIdx := (q.usedIdx + 1) % U16)];
      shadows := shadows[i := HostDone(s, h, len)];
      MovedOk(w, Now(), paddr, i);
    }
  }

  lemma HeadsAt(w: World, paddr: seq<nat>, i: nat, h: nat)
    requires HeadsOk(w, paddr) && i < |w.shadows| && h in w.shadows[i].tableOf
    ensures HeadOk(w, paddr, i, h)
  {
  }

  lemma UsedFits(q: Queue, s: Shadow)
    requires QueueOk(q, s)
    ensures 1 <= q.num == |q.usedRing| == |q.availRing|
  {
  }

  lemma NoneLeft(q: Queue, s: Shadow)
    requires q.freeNum == 0
    ensures !QueueOk(q, s)
  {
  }

  /** A queue on which nothing was ever published: all descriptors free, in index order. */
  ghost function Idle(num: nat): Shadow {
    Shadow(Range(num), map[], seq(num, i => None), [], {}, [], 0, map[], map[])
  }

  /** All descriptors free and linked in index order, both rings empty. */
  lemma FreshOk(q: Queue, num: nat)
    requires 1 <= num == q.num && U16 % num == 0 && |q.desc| == |q.data| == |q.availRing| == |q.usedRing| == num
    requires q.freeNum == num && q.freeHead == 0 && q.freeTail == num - 1 && q.lastUsed == q.availIdx == q.usedIdx == 0
    requires forall i | 0 <= i < num :: q.data[i] == None && q.desc[i].next && (i < num - 1 ==> q.desc[i].link == i + 1)
    ensures QueueOk(q, Idle(num))
  {
    var s := Idle(num);
    forall p | 0 <= p < |s.free| - 1 ensures LinkOk(q.desc, s.free, p) {
    }
    assert FreeOk(q, s);
    forall i | 0 <= i < num ensures i in s.free {
      assert s.free[i] == i;
    }
    assert CoverOk(q, s);
    SmallMod(0, num);
    assert At(0, 0, num) == 0;
    hide FreeOk, CoverOk;
    assert RingsOk(q, s);
  }

  /**
   Set up a queue of the size the host reports, refusing sizes that are not powers of two. Size zero, which a
   host reports for a queue it lacks, passes the test and gives a queue without descriptors.
   */
  method InitQueue(num: bv16) returns (r: Option<Queue>)
    ensures r.None? <==> num & (num - 1) != 0
    ensures r.Some? ==> r.value.num == r.value.freeNum == |r.value.desc| == num as nat
    ensures r.Some? ==> (QueueOk(r.value, Idle(num as nat)) <==> num != 0)
  {
    if num & (num - 1) != 0 {
      return None;
    }
    var n := num as nat;
    var zero := Desc(0, 0, false, false, false, 0);
    var desc := seq(n, i => zero);
    var i := 0;
    while i < n
      invariant 0 <= i <= n && |desc| == n
      invariant forall j | 0 <= j < i :: desc[j].next && (j < n - 1 ==> desc[j].link == j + 1)
    {
      desc := desc[i := desc[i].(next := true, link := if i + 1 == n then 0 else i + 1)];
      i := i + 1;
    }
    var q := Queue(n, desc, n, 0, (n + U16 - 1) % U16, 0, seq(n, j => None), 0, seq(n, j => 0), 0,
      seq(n, j => Used(0, 0)));
    if num != 0 {
      PowerOfTwoDivides(num);
      FreshOk(q, n);
    }
    return Some(q);
  }

  // ----- the last free descriptor

  /**
   Reclaiming asserts that the free tail's next flag is set. After a publication of `n` descriptors that
   holds exactly if it left one free.
   */
  lemma TailUsableIff(q: Queue, s: Shadow, desc: seq<Desc>, n: nat, bufs: seq<Buf>, indirect: bool)
    requires QueueOk(q, s) && 1 <= n <= |s.free| && OnlyIn(q.desc, desc, s.free[..n])
    requires Described(desc, s.free[..n], bufs, indirect)
    ensures q.freeTail < |desc| && (desc[q.freeTail].next <==> n < q.freeNum)
  {
    hide CoverOk, StagesOk, RingsOk, ChainsOk, Linked, CarriesAll;
    var last := |s.free| - 1;
    assert s.free[last] == q.freeTail;
    if n == |s.free| {
      assert s.free[..n][last] == q.freeTail;
    } else {
      assert q.freeTail !in s.free[..n];
    }
  }

  /** One thread, one descriptor: the first request takes a table, and its completion will find the tail in use. */
  method LastDescriptor(address: nat, buf: Buf, cookie: nat) returns (d: Device, r: Outcome)
    ensures r == Done && |d.queues| == 1 && d.queues[0].freeTail < |d.queues[0].desc|
    ensures !d.queues[0].desc[d.queues[0].freeTail].next
  {
    hide QueueOk;
    var q := InitQueue(1);
    d := new Device([q.value], [address]);
    ghost var table;
    r, table := d.ToQueue(0, [buf], Some(cookie));
  }
}
