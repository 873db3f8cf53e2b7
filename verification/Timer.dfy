/**
 The per-CPU timer list of kernel/timer.c: nodes on two linked lists, the pending timers by deadline and
 the free nodes, proved against the books of TimerBook.dfy. Time is a 64-bit millisecond count. What a
 callback re-arms, and whether memory for a new node is found, are parameters.
 */
module Timer {
  import opened Options
  import opened Chains
  import opened TimerBook

  const NR_TIMER_BUF := 16

  ghost predicate Within(c: seq<nat>, n: nat) {
    forall p | 0 <= p < |c| :: c[p] < n
  }

  ghost predicate Sorted(deadline: seq<nat>, c: seq<nat>) {
    Within(c, |deadline|) && forall i, j | 0 <= i < j < |c| :: deadline[c[i]] <= deadline[c[j]]
  }

  /** No node is on both lists or twice on one, and every node is on one. */
  ghost predicate Partition(n: nat, timers: seq<nat>, free: seq<nat>) {
    && NoDup(timers) && NoDup(free) && Within(timers, n) && Within(free, n)
    && (forall p | 0 <= p < |free| :: free[p] !in timers)
    && forall x: nat | x < n :: x in timers || x in free
  }

  /**
   Where `set_timeout` puts a deadline: behind every earlier one and before every other, except that it goes
   in front of the first timer only if it is earlier.
   */
  ghost predicate IsPlace(deadline: seq<nat>, c: seq<nat>, d: nat, k: nat) {
    && Within(c, |deadline|)
    && k <= |c| && (k == 0 <==> c == [] || d < deadline[c[0]])
    && (forall p | 0 <= p < k :: deadline[c[p]] <= d && (0 < p ==> deadline[c[p]] < d))
    && (forall p | k <= p < |c| :: d <= deadline[c[p]])
  }

  ghost function Inserted(c: seq<nat>, k: nat, x: nat): (r: seq<nat>)
    requires k <= |c|
    ensures |r| == |c| + 1 && r[k] == x
    ensures forall p | 0 <= p < k :: r[p] == c[p]
    ensures forall p | k < p <= |c| :: r[p] == c[p - 1]
    ensures forall y :: y in r <==> y == x || y in c
  {
    c[..k] + [x] + c[k..]
  }

  lemma InsertedSorted(deadline: seq<nat>, deadline': seq<nat>, c: seq<nat>, k: nat, x: nat)
    requires Sorted(deadline, c) && x < |deadline'| && |deadline| <= |deadline'| && x !in c
    requires forall p | 0 <= p < |c| :: deadline'[c[p]] == deadline[c[p]]
    requires IsPlace(deadline, c, deadline'[x], k)
    ensures Sorted(deadline', Inserted(c, k, x))
  {
  }

  lemma InsertedPath(next: seq<Option<nat>>, next': seq<Option<nat>>, first: Option<nat>, first': Option<nat>,
                     c: seq<nat>, k: nat, x: nat)
    requires Path(next, first, c) && NoDup(c) && x !in c && k <= |c| && x < |next'| && |next| <= |next'|
    requires next'[x] == (if k < |c| then Some(c[k]) else None)
    requires forall p | 0 <= p < |c| && p != k - 1 :: next'[c[p]] == next[c[p]]
    requires if k == 0 then first' == Some(x) else first' == first && next'[c[k - 1]] == Some(x)
    ensures Path(next', first', Inserted(c, k, x)) && NoDup(Inserted(c, k, x))
  {
    hide NoDup;
    var d := Inserted(c, k, x);
    forall p | 0 <= p < |d| ensures d[p] < |next'| && next'[d[p]] == Follower(d, p) {
      if p < k - 1 {
        assert Follower(d, p) == Follower(c, p);
      } else if p > k {
        assert Follower(d, p) == Follower(c, p - 1);
      }
    }
    assert NoDup(d) by {
      InsertedNoDup(c, k, x);
    }
  }

  lemma InsertedNoDup(c: seq<nat>, k: nat, x: nat)
    requires NoDup(c) && k <= |c| && x !in c
    ensures NoDup(Inserted(c, k, x))
  {
  }

  /** The pending timers as the nodes of `c` record them. */
  ghost function Shots(deadline: seq<nat>, callback: seq<nat>, c: seq<nat>): (r: seq<Shot>)
    requires Within(c, |deadline|) && Within(c, |callback|)
    ensures |r| == |c| && forall p | 0 <= p < |c| :: r[p] == Shot(deadline[c[p]], callback[c[p]])
  {
    seq(|c|, p requires 0 <= p < |c| => Shot(deadline[c[p]], callback[c[p]]))
  }

  /** The place the walk finds is the place of the book. */
  lemma PlaceOfShot(deadline: seq<nat>, callback: seq<nat>, c: seq<nat>, d: nat, k: nat)
    requires IsPlace(deadline, c, d, k) && Within(c, |callback|)
    ensures k == Place(Shots(deadline, callback, c), d)
  {
    var s := Shots(deadline, callback, c);
    if k > 0 {
      forall p | 0 <= p < k - 1 ensures s[1..][p].deadline < d {
        assert s[1..][p] == s[p + 1];
      }
      assert k < |c| ==> s[1..][k - 1] == s[k];
      EarlierUnique(s[1..], d, k - 1);
    }
  }

  lemma ShotsInserted(deadline: seq<nat>, callback: seq<nat>, deadline': seq<nat>, callback': seq<nat>, c: seq<nat>,
                      k: nat, x: nat)
    requires Kept(c, deadline, deadline') && Kept(c, callback, callback') && x < |deadline'| && x < |callback'|
    requires IsPlace(deadline, c, deadline'[x], k)
    ensures Within(Inserted(c, k, x), |deadline'|) && Within(Inserted(c, k, x), |callback'|)
    ensures Shots(deadline', callback', Inserted(c, k, x))
            == Insert(Shots(deadline, callback, c), Shot(deadline'[x], callback'[x]))
  {
    PlaceOfShot(deadline, callback, c, deadline'[x], k);
  }

  /** The last `k` nodes leave, or a node joins: what moving nodes between the lists does to their split. */
  lemma PartitionTake(n: nat, timers: seq<nat>, free: seq<nat>, k: nat)
    requires Partition(n, timers, free) && k <= |timers|
    ensures Partition(n, timers[k..], timers[..k] + free)
  {
    var t, f := timers[k..], timers[..k] + free;
    assert timers == timers[..k] + t;
    forall p | 0 <= p < |f| ensures f[p] !in t {
    }
  }

  /** All nodes but `x` are split between the lists. */
  ghost predicate AllBut(n: nat, timers: seq<nat>, free: seq<nat>, x: nat) {
    && x < n && x !in timers && x !in free
    && NoDup(timers) && NoDup(free) && Within(timers, n) && Within(free, n)
    && (forall p | 0 <= p < |free| :: free[p] !in timers)
    && forall y: nat | y < n && y != x :: y in timers || y in free
  }

  lemma AllButFacts(n: nat, timers: seq<nat>, free: seq<nat>, x: nat)
    requires AllBut(n, timers, free, x)
    ensures x < n && x !in timers && NoDup(timers) && Within(timers, n)
  {
  }

  lemma TimersStart(next: seq<Option<nat>>, first: Option<nat>, c: seq<nat>)
    requires Path(next, first, c)
    ensures first == First(c) && (c != [] ==> c[0] < |next|)
  {
  }

  lemma AllButJoin(n: nat, timers: seq<nat>, free: seq<nat>, k: nat, x: nat)
    requires AllBut(n, timers, free, x) && k <= |timers|
    ensures Partition(n, Inserted(timers, k, x), free)
  {
    InsertedNoDup(timers, k, x);
  }

  lemma AllButHead(n: nat, timers: seq<nat>, free: seq<nat>)
    requires Partition(n, timers, free) && free != []
    ensures AllBut(n, timers, free[1..], free[0])
  {
    assert free == [free[0]] + free[1..];
  }

  lemma AllButNew(n: nat, timers: seq<nat>)
    requires Partition(n, timers, [])
    ensures AllBut(n + 1, timers, [], n)
  {
  }

  /** Cutting the chain of timers behind its `k`-th node and hanging the front before the free nodes. */
  lemma CutPaths(next: seq<Option<nat>>, first: Option<nat>, pfree: Option<nat>, timers: seq<nat>, free: seq<nat>,
                 k: nat, n: nat)
    requires Path(next, first, timers) && Path(next, pfree, free) && 1 <= k <= |timers| && Partition(n, timers, free)
    ensures timers[k - 1] < |next|
    ensures var l := timers[k - 1]; var next' := next[l := pfree];
      Path(next', next[l], timers[k..]) && Path(next', first, timers[..k] + free)
  {
    var l, b, t := timers[k - 1], timers[..k], timers[k..];
    PathDrop(next, first, timers, k);
    var next' := next[l := pfree];
    assert forall p | 0 <= p < |timers| && p != k - 1 :: timers[p] != l;
    forall p | 0 <= p < |t| ensures t[p] != l {
      assert t[p] == timers[k + p];
    }
    PathFrame(next, next', next[l], t);
    assert l in timers;
    PathFrame(next, next', pfree, free);
    forall p | 0 <= p < |b| - 1 ensures b[p] < |next'| && next'[b[p]] == Follower(b, p) {
      assert b[p] == timers[p] && Follower(timers, p) == Follower(b, p);
    }
    PathJoin(next', b, free, pfree);
  }

  /** The nodes of `c` have the same field in both. */
  ghost predicate Kept(c: seq<nat>, was: seq<nat>, now: seq<nat>) {
    |was| <= |now| && Within(c, |was|) && forall p | 0 <= p < |c| :: now[c[p]] == was[c[p]]
  }

  lemma FreshNodes(links: seq<Option<nat>>, n: nat)
    requires n == |links| >= 1 && links[n - 1] == None && forall j | 0 <= j < n - 1 :: links[j] == Some(j + 1)
    ensures Path(links, Some(0), Range(n)) && Path(links, None, []) && Partition(n, [], Range(n))
  {
    forall x: nat | x < n ensures x in Range(n) {
      assert Range(n)[x] == x;
    }
  }

  lemma PlaceFound(deadline: seq<nat>, c: seq<nat>, d: nat, k: nat)
    requires Sorted(deadline, c) && 1 <= k <= |c| && (k < |c| ==> d <= deadline[c[k]])
    requires forall p | 0 <= p < k :: deadline[c[p]] <= d && (0 < p ==> deadline[c[p]] < d)
    ensures IsPlace(deadline, c, d, k)
  {
  }

  class Timers {
    var next: seq<Option<nat>>
    var deadline: seq<nat>
    var callback: seq<nat>
    var pfree: Option<nat>
    var ptimer: Option<nat>
    ghost var timers: seq<nat>
    ghost var free: seq<nat>
    ghost var log: seq<Shot>      // every timer set so far

    ghost predicate Linked()
      reads this
    {
      && |next| == |deadline| == |callback| && Within(timers, |next|)
      && Path(next, ptimer, timers) && Path(next, pfree, free) && Sorted(deadline, timers)
    }

    /** What the two lists stand for. */
    ghost function Now(): Book
      reads this
      requires Linked()
    {
      Book(Shots(deadline, callback, timers), |free|, log)
    }

    /** Timers sorted by deadline; each node on exactly one list. */
    ghost predicate Valid()
      reads this
    {
      Linked() && Partition(|next|, timers, free)
    }

    constructor ()
      ensures Valid() && Now() == Book([], NR_TIMER_BUF, [])
    {
      hide Partition, Path;
      var links: seq<Option<nat>> := seq(NR_TIMER_BUF, i => None);
      var i := 0;
      while i < NR_TIMER_BUF - 1
        invariant 0 <= i <= NR_TIMER_BUF - 1 && |links| == NR_TIMER_BUF
        invariant forall j | 0 <= j < i :: links[j] == Some(j + 1)
        invariant forall j | i <= j < NR_TIMER_BUF :: links[j] == None
      {
        links := links[i := Some(i + 1)];
        i := i + 1;
      }
      next := links;
      deadline := seq(NR_TIMER_BUF, i => 0);
      callback := seq(NR_TIMER_BUF, i => 0);
      pfree, ptimer := Some(0), None;
      timers, free, log := [], Range(NR_TIMER_BUF), [];
      FreshNodes(links, |links|);
      new;
    }

    /** The place behind every earlier deadline, from a first timer that is no later. */
    method FindPlace(d: nat) returns (ptr: nat, ghost k: nat)
      requires Linked() && ptimer.Some? && ptimer.value < |deadline| && deadline[ptimer.value] <= d
      ensures 1 <= k <= |timers| && ptr == timers[k - 1] && IsPlace(deadline, timers, d, k)
    {
      ptr, k := ptimer.value, 1;
      assert timers != [] && timers[0] == ptr;
      while next[ptr].Some? && deadline[next[ptr].value] < d
        invariant 1 <= k <= |timers| && ptr == timers[k - 1]
        invariant forall p | 0 <= p < k :: deadline[timers[p]] <= d && (0 < p ==> deadline[timers[p]] < d)
        decreases |timers| - k
      {
        assert next[ptr] == Follower(timers, k - 1);
        ptr, k := next[ptr].value, k + 1;
      }
      assert next[ptr] == Follower(timers, k - 1);
      PlaceFound(deadline, timers, d, k);
    }

    /** A node from the free list, or a new one when there is memory. */
    method TakeNode(memory: bool) returns (p: Option<nat>)
      requires Valid()
      modifies this`next, this`deadline, this`callback, this`pfree, this`free
      ensures p.None? <==> old(free) == [] && !memory
      ensures p.None? ==> Valid() && deadline == old(deadline) && callback == old(callback) && free == old(free)
      ensures p.Some? ==> Linked() && AllBut(|next|, timers, free, p.value)
      ensures p.Some? ==> |free| == if |old(free)| == 0 then 0 else |old(free)| - 1
      ensures Kept(timers, old(deadline), deadline) && Kept(timers, old(callback), callback)
    {
      hide NoDup;
      p := pfree;
      if pfree.None? {
        if !memory {
          return;
        }
        AllButNew(|next|, timers);
        p := Some(|next|);
        assert forall i | 0 <= i < |timers| :: timers[i] < |next|;
        next, deadline, callback := next + [None], deadline + [0], callback + [0];
      } else {
        AllButHead(|next|, timers, free);
        PathRest(next, free);
        assert next[free[0]] == Follower(free, 0);
        pfree, free := next[p.value], free[1..];
      }
    }

    /** Put a node that is on neither list among the timers. */
    method LinkIn(p: nat, d: nat) returns (ghost k: nat)
      requires Linked() && AllBut(|next|, timers, free, p) && deadline[p] == d
      modifies this`next, this`ptimer, this`timers
      ensures Valid() && |next| == |old(next)|
      ensures k <= |old(timers)| && timers == Inserted(old(timers), k, p) && IsPlace(deadline, old(timers), d, k)
    {
      hide NoDup, Sorted, Inserted, IsPlace, Path, Within, AllBut;
      k := 0;
      ghost var was, first := next, ptimer;
      AllButFacts(|next|, timers, free, p);
      TimersStart(next, ptimer, timers);
      if ptimer.None? || d < deadline[ptimer.value] {
        next := next[p := ptimer];
        ptimer := Some(p);
        PlaceFirst(deadline, timers, d);
      } else {
        var ptr;
        ptr, k := FindPlace(d);
        PathAt(next, ptimer, timers, k - 1);
        next := next[p := next[ptr]][ptr := Some(p)];
      }
      OnlyTwo(was, next, timers, k, p);
      InsertedPath(was, next, first, ptimer, timers, k, p);
      InsertedSorted(deadline, deadline, timers, k, p);
      FreeApart(was, next, pfree, free, timers, k, p, |next|);
      AllButJoin(|next|, timers, free, k, p);
      timers := Inserted(timers, k, p);
    }

    /** Set a timer; it fails exactly without a spare node and without memory. */
    method SetTimeout(msec: nat, fn: nat, now: nat, memory: bool) returns (ok: bool)
      requires Valid()
      modifies this
      ensures Valid()
      ensures Now() == Set(old(Now()), Shot((msec + now) % U64, fn), memory)
      ensures ok <==> old(free) != [] || memory
    {
      hide NoDup, Inserted, Path, Sorted, IsPlace, Within, Insert;
      ghost var c := timers;
      var p := TakeNode(memory);
      if p.None? {
        return false;
      }
      var d := (msec + now) % U64;
      KeptUpdate(c, old(deadline), deadline, p.value, d);
      KeptUpdate(c, old(callback), callback, p.value, fn);
      deadline, callback := deadline[p.value := d], callback[p.value := fn];
      SameSorted(old(deadline), deadline, c);
      ghost var k := LinkIn(p.value, d);
      SamePlace(old(deadline), deadline, c, d, k);
      ShotsInserted(old(deadline), old(callback), deadline, callback, c, k, p.value);
      log := log + [Shot(d, fn)];
      return true;
    }

    /** Walk the leading expired timers, at most ten, noting what they call. */
    method CollectBatch(now: nat) returns (p: nat, ptr: nat, batch: seq<nat>)
      requires Linked() && Due(Now().pending, now) >= 1
      ensures |batch| == BatchSize(Now().pending, now) >= 1 && batch == Callbacks(Now().pending[..|batch|])
      ensures ptimer == Some(p) && ptr == timers[|batch| - 1] && ptr < |next|
    {
      hide Sorted, Path, Due;
      ghost var shots := Now().pending;
      DueMeans(shots, now);
      PathAt(next, ptimer, timers, 0);
      p := ptimer.value;
      ptr := p;
      batch := [callback[ptr]];
      ghost var k := 1;
      while next[ptr].Some? && deadline[next[ptr].value] <= now && |batch| < BATCH
        invariant 1 <= k == |batch| <= BatchSize(shots, now) && ptr == timers[k - 1]
        invariant next[ptr] == Follower(timers, k - 1)
        invariant forall q | 0 <= q < k :: batch[q] == shots[q].callback
        decreases |timers| - k
      {
        PathAt(next, ptimer, timers, k);
        assert shots[k].deadline <= now;
        ptr := next[ptr].value;
        batch := batch + [callback[ptr]];
        k := k + 1;
      }
    }

    /** Detach up to ten expired timers, give their nodes back, and keep what they call. */
    method TakeBatch(now: nat) returns (batch: seq<nat>)
      requires Valid() && Due(Now().pending, now) >= 1
      modifies this`next, this`ptimer, this`pfree, this`timers, this`free
      ensures Valid() && |batch| == BatchSize(old(Now()).pending, now) >= 1
      ensures batch == Callbacks(old(Now()).pending[..|batch|])
      ensures Now() == old(Now()).(pending := old(Now()).pending[|batch|..], spare := old(Now()).spare + |batch|)
    {
      hide NoDup, Partition, Path, Due;
      var p, ptr;
      p, ptr, batch := CollectBatch(now);
      ghost var k := |batch|;
      CutPaths(next, ptimer, pfree, timers, free, k, |next|);
      PartitionTake(|next|, timers, free, k);
      SortedBehind(deadline, timers, k);
      hide Sorted;
      ptimer := next[ptr];
      next := next[ptr := pfree];
      pfree := Some(p);
      timers, free := timers[k..], timers[..k] + free;
    }

    /** Call each function of the batch in turn. */
    method RunCallbacks(batch: seq<nat>, now: nat, effect: (nat, nat) -> seq<Arm>, from: nat)
      requires Valid()
      modifies this
      ensures Valid() && Now() == CallAll(old(Now()), batch, now, effect, from)
    {
      hide NoDup, Sorted, Path, Partition, Set, Shots;
      ghost var b := Now();
      var i := 0;
      assert batch[..0] == [];
      while i < |batch|
        invariant 0 <= i <= |batch| && Valid() && Now() == CallAll(b, batch[..i], now, effect, from)
      {
        ghost var c := Now();
        var arms := effect(from + i, batch[i]);
        var j := 0;
        assert arms[..0] == [];
        while j < |arms|
          invariant 0 <= j <= |arms| && Valid() && Now() == ArmAll(c, arms[..j], now)
        {
          var _ := SetTimeout(arms[j].msec, arms[j].callback, now, arms[j].memory);
          assert arms[..j + 1][..j] == arms[..j];
          j := j + 1;
        }
        assert arms[..j] == arms;
        assert batch[..i + 1][..i] == batch[..i];
        i := i + 1;
      }
      assert batch[..i] == batch;
    }

    /** The timer softirq at tick `now`: fires exactly the expired timers, once each, in their order. */
    method RunTimers(now: nat, effect: (nat, nat) -> seq<Arm>, from: nat) returns (fired: seq<nat>)
      requires Valid() && FutureOnly(effect, now)
      modifies this
      ensures Valid() && Now() == RunAll(old(Now()), now, effect, from)
      ensures fired == Callbacks(old(Now()).pending[..Due(old(Now()).pending, now)])
      decreases Due(Now().pending, now)
    {
      hide NoDup, Path, Partition, Sorted, FutureOnly, CallAll;
      ghost var b := Now();
      NoneDue(now);
      if ptimer.None? || now < deadline[ptimer.value] {
        return [];
      }
      fired := TakeBatch(now);
      RunCallbacks(fired, now, effect, from);
      FiredAll(b, now, effect, from);
      if |fired| == BATCH {
        var rest := RunTimers(now, effect, from + BATCH);
        fired := fired + rest;
      }
    }

    lemma NoneDue(now: nat)
      requires Valid()
      ensures ptimer.Some? ==> ptimer.value < |deadline|
      ensures ptimer.None? || now < deadline[ptimer.value] <==> Due(Now().pending, now) == 0
    {
    }
  }

  lemma SortedBehind(deadline: seq<nat>, c: seq<nat>, k: nat)
    requires Sorted(deadline, c) && k <= |c|
    ensures Sorted(deadline, c[k..])
  {
  }

  lemma PlaceFirst(deadline: seq<nat>, c: seq<nat>, d: nat)
    requires Sorted(deadline, c) && (c == [] || d < deadline[c[0]])
    ensures IsPlace(deadline, c, d, 0)
  {
  }

  /** Writing the next fields of `p` and of the node before place `k` disturbs no other link. */
  lemma OnlyTwo(next: seq<Option<nat>>, next': seq<Option<nat>>, c: seq<nat>, k: nat, p: nat)
    requires NoDup(c) && k <= |c| && p !in c && p < |next| == |next'| && Within(c, |next|)
    requires forall y: nat | y < |next| && y != p && (k == 0 || y != c[k - 1]) :: next'[y] == next[y]
    ensures forall q | 0 <= q < |c| && q != k - 1 :: next'[c[q]] == next[c[q]]
  {
  }

  lemma FreeApart(next: seq<Option<nat>>, next': seq<Option<nat>>, pfree: Option<nat>, free: seq<nat>, c: seq<nat>,
                  k: nat, p: nat, n: nat)
    requires Path(next, pfree, free) && AllBut(n, c, free, p) && n == |next| == |next'| && k <= |c|
    requires forall y: nat | y < |next| && y != p && (k == 0 || y != c[k - 1]) :: next'[y] == next[y]
    ensures Path(next', pfree, free)
  {
    assert k > 0 ==> c[k - 1] in c;
    PathFrame(next, next', pfree, free);
  }

  lemma SameSorted(deadline: seq<nat>, deadline': seq<nat>, c: seq<nat>)
    requires Sorted(deadline, c) && Kept(c, deadline, deadline')
    ensures Sorted(deadline', c)
  {
  }

  lemma KeptUpdate(c: seq<nat>, was: seq<nat>, now: seq<nat>, x: nat, v: nat)
    requires Kept(c, was, now) && x < |now| && x !in c
    ensures Kept(c, was, now[x := v])
  {
  }

  lemma SamePlace(deadline: seq<nat>, deadline': seq<nat>, c: seq<nat>, d: nat, k: nat)
    requires Kept(c, deadline, deadline') && Within(c, |deadline'|) && IsPlace(deadline', c, d, k)
    ensures Within(c, |deadline|) && IsPlace(deadline, c, d, k)
  {
  }
}
