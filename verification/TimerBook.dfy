/**
 What the timer list of kernel/timer.c stands for: the pending timers in the order they will fire, the
 number of spare nodes, and a log of every timer set. Setting a timer, running callbacks and the timer
 softirq are functions on such books; the list itself is proved against them in Timer.dfy.
 */
module TimerBook {

  const U64 := 0x1_0000_0000_0000_0000
  const BATCH := 10

  /** A pending timer: when it fires and what it calls. */
  datatype Shot = Shot(deadline: nat, callback: nat)

  /** One call of `set_timeout` made by a callback. */
  datatype Arm = Arm(msec: nat, callback: nat, memory: bool)

  datatype Book = Book(pending: seq<Shot>, spare: nat, log: seq<Shot>)

  // ----- setting one timer

  /** How many timers are strictly earlier, from the front. */
  ghost function Earlier(c: seq<Shot>, d: nat): (k: nat)
    ensures k <= |c|
  {
    if c == [] || d <= c[0].deadline then 0 else 1 + Earlier(c[1..], d)
  }

  /** The place of a deadline: the first timer is passed on a tie, the others only if strictly earlier. */
  ghost function Place(c: seq<Shot>, d: nat): (k: nat)
    ensures k <= |c|
  {
    if c == [] || d < c[0].deadline then 0 else 1 + Earlier(c[1..], d)
  }

  ghost function Insert(c: seq<Shot>, s: Shot): seq<Shot> {
    c[..Place(c, s.deadline)] + [s] + c[Place(c, s.deadline)..]
  }

  /** A timer takes a spare node, or a new one if there is memory; otherwise it is not set. */
  ghost function Set(b: Book, s: Shot, memory: bool): Book {
    if b.spare == 0 && !memory then b
    else Book(Insert(b.pending, s), if b.spare == 0 then 0 else b.spare - 1, b.log + [s])
  }

  lemma {:induction false} EarlierUnique(c: seq<Shot>, d: nat, k: nat)
    requires k <= |c| && (forall p | 0 <= p < k :: c[p].deadline < d) && (k < |c| ==> d <= c[k].deadline)
    ensures Earlier(c, d) == k
  {
    if k > 0 {
      EarlierUnique(c[1..], d, k - 1);
    }
  }

  lemma {:induction false} EarlierMeans(c: seq<Shot>, d: nat)
    ensures forall p | 0 <= p < Earlier(c, d) :: c[p].deadline < d
    ensures Earlier(c, d) < |c| ==> d <= c[Earlier(c, d)].deadline
  {
    if c != [] && c[0].deadline < d {
      EarlierMeans(c[1..], d);
      forall p | 0 < p < Earlier(c, d) ensures c[p].deadline < d {
        assert c[1..][p - 1] == c[p];
      }
    }
  }

  ghost predicate InOrder(c: seq<Shot>) {
    forall i, j | 0 <= i < j < |c| :: c[i].deadline <= c[j].deadline
  }

  /** A pending timer of the same deadline fires before the new one exactly if it is the first of the list. */
  lemma NewTimerAmongTies(c: seq<Shot>, s: Shot, p: nat)
    requires InOrder(c) && p < |c| && c[p].deadline == s.deadline
    ensures p < Place(c, s.deadline) <==> p == 0
    ensures Insert(c, s)[Place(c, s.deadline)] == s
    ensures Insert(c, s)[if p == 0 then 0 else p + 1] == c[p]
  {
    var k := Earlier(c[1..], s.deadline);
    EarlierMeans(c[1..], s.deadline);
    if 0 < p {
      assert c[1..][p - 1] == c[p];
    }
  }

  /** So equal deadlines fire in the order of their calls exactly if no timer behind the first has this one. */
  lemma CallOrderKeptIff(c: seq<Shot>, s: Shot)
    requires InOrder(c)
    ensures (forall p | 0 <= p < |c| && c[p].deadline == s.deadline :: p < Place(c, s.deadline)) <==>
            (forall p | 1 <= p < |c| :: c[p].deadline != s.deadline)
  {
    forall p | 0 <= p < |c| && c[p].deadline == s.deadline ensures p < Place(c, s.deadline) <==> p == 0 {
      NewTimerAmongTies(c, s, p);
    }
  }

  /** Three timers set for one deadline fire first, third, second. */
  lemma ThreeEqualDeadlines(d: nat)
    ensures Insert(Insert(Insert([], Shot(d, 1)), Shot(d, 2)), Shot(d, 3)) == [Shot(d, 1), Shot(d, 3), Shot(d, 2)]
  {
    var a, b, c := Shot(d, 1), Shot(d, 2), Shot(d, 3);
    assert Insert([], a) == [a];
    assert [a][1..] == [];
    assert Insert([a], b) == [a, b];
    assert [a, b][1..] == [b];
    assert Place([a, b], d) == 1;
  }

  // ----- callbacks

  ghost function ArmAll(b: Book, arms: seq<Arm>, now: nat): Book {
    if arms == [] then b
    else
      var last := arms[|arms| - 1];
      Set(ArmAll(b, arms[..|arms| - 1], now), Shot((last.msec + now) % U64, last.callback), last.memory)
  }

  /** The callbacks of a batch in turn; `effect(n, f)` is what the run's `n`-th call re-arms when it calls `f`. */
  ghost function CallAll(b: Book, batch: seq<nat>, now: nat, effect: (nat, nat) -> seq<Arm>, from: nat): Book {
    if batch == [] then b
    else
      var last := |batch| - 1;
      ArmAll(CallAll(b, batch[..last], now, effect, from), effect(from + last, batch[last]), now)
  }

  /** Callbacks re-arm only into the future, within the 64-bit tick. */
  ghost predicate FutureOnly(effect: (nat, nat) -> seq<Arm>, now: nat) {
    forall n: nat, f: nat :: FutureArms(effect(n, f), now)
  }

  ghost predicate FutureArms(arms: seq<Arm>, now: nat) {
    forall j | 0 <= j < |arms| :: 1 <= arms[j].msec && now + arms[j].msec < U64
  }

  /** How many timers have expired, from the front. */
  ghost function Due(c: seq<Shot>, now: nat): (k: nat)
    ensures k <= |c|
  {
    if c == [] || now < c[0].deadline then 0 else 1 + Due(c[1..], now)
  }

  lemma {:induction false} DueMeans(c: seq<Shot>, now: nat)
    ensures forall p | 0 <= p < Due(c, now) :: c[p].deadline <= now
    ensures Due(c, now) < |c| ==> now < c[Due(c, now)].deadline
  {
    if c != [] && c[0].deadline <= now {
      DueMeans(c[1..], now);
      forall p | 0 < p < Due(c, now) ensures c[p].deadline <= now {
        assert c[1..][p - 1] == c[p];
      }
    }
  }

  lemma {:induction false} DueUnique(c: seq<Shot>, now: nat, k: nat)
    requires k <= |c| && (forall p | 0 <= p < k :: c[p].deadline <= now) && (k < |c| ==> now < c[k].deadline)
    ensures Due(c, now) == k
  {
    if k > 0 {
      DueUnique(c[1..], now, k - 1);
    }
  }

  /** `b'` is `b` with timers set for later: the log grew by them and the pending timers too. */
  ghost predicate Grown(b: Book, b': Book, now: nat) {
    && b.log <= b'.log && multiset(b'.pending) == multiset(b.pending) + multiset(b'.log[|b.log|..])
    && (forall i | |b.log| <= i < |b'.log| :: now < b'.log[i].deadline)
    && Due(b'.pending, now) == Due(b.pending, now)
    && b'.pending[..Due(b.pending, now)] == b.pending[..Due(b.pending, now)]
  }

  lemma GrownRefl(b: Book, now: nat)
    ensures Grown(b, b, now)
  {
    assert b.log[|b.log|..] == [];
  }

  lemma GrownTrans(b: Book, c: Book, d: Book, now: nat)
    requires Grown(b, c, now) && Grown(c, d, now)
    ensures Grown(b, d, now)
  {
    assert d.log[|b.log|..] == c.log[|b.log|..] + d.log[|c.log|..];
  }

  /** A timer set for later goes behind all that have expired. */
  lemma DueBeforePlace(c: seq<Shot>, d: nat, now: nat)
    requires now < d
    ensures Due(c, now) <= Place(c, d)
  {
    DueMeans(c, now);
    if c != [] {
      EarlierMeans(c[1..], d);
      var k := Place(c, d);
      assert 0 < k < |c| ==> d <= c[1..][k - 1].deadline == c[k].deadline;
    }
  }

  lemma InsertLater(c: seq<Shot>, s: Shot, now: nat)
    requires now < s.deadline
    ensures multiset(Insert(c, s)) == multiset(c) + multiset{s}
    ensures Due(Insert(c, s), now) == Due(c, now) && Insert(c, s)[..Due(c, now)] == c[..Due(c, now)]
  {
    hide Place, Due;
    DueBeforePlace(c, s.deadline, now);
    DueMeans(c, now);
    PutIn(c, Place(c, s.deadline), s);
    var k, q, r := Place(c, s.deadline), Due(c, now), Insert(c, s);
    assert r[..q] == c[..q];
    assert forall p | 0 <= p < q :: r[p] == r[..q][p] && c[p] == c[..q][p];
    assert q < |c| ==> r[q] == if q < k then c[q] else s;
    DueUnique(r, now, q);
  }

  lemma PutIn(c: seq<Shot>, k: nat, s: Shot)
    requires k <= |c|
    ensures multiset(c[..k] + [s] + c[k..]) == multiset(c) + multiset{s}
  {
    assert c == c[..k] + c[k..];
  }

  lemma SetGrows(b: Book, s: Shot, memory: bool, now: nat)
    requires now < s.deadline
    ensures Grown(b, Set(b, s, memory), now)
  {
    if b.spare == 0 && !memory {
      GrownRefl(b, now);
    } else {
      InsertLater(b.pending, s, now);
      assert (b.log + [s])[|b.log|..] == [s];
    }
  }

  lemma {:induction false} ArmAllGrows(b: Book, arms: seq<Arm>, now: nat)
    requires FutureArms(arms, now)
    ensures Grown(b, ArmAll(b, arms, now), now)
  {
    hide Grown, Set;
    if arms == [] {
      GrownRefl(b, now);
    } else {
      var last := arms[|arms| - 1];
      ArmAllGrows(b, arms[..|arms| - 1], now);
      var c := ArmAll(b, arms[..|arms| - 1], now);
      SetGrows(c, Shot((last.msec + now) % U64, last.callback), last.memory, now);
      GrownTrans(b, c, ArmAll(b, arms, now), now);
    }
  }

  lemma {:induction false} CallAllGrows(b: Book, batch: seq<nat>, now: nat, effect: (nat, nat) -> seq<Arm>, from: nat)
    requires FutureOnly(effect, now)
    ensures Grown(b, CallAll(b, batch, now, effect, from), now)
  {
    hide Grown, ArmAll;
    if batch == [] {
      GrownRefl(b, now);
    } else {
      var last := |batch| - 1;
      CallAllGrows(b, batch[..last], now, effect, from);
      var c := CallAll(b, batch[..last], now, effect, from);
      ArmAllGrows(c, effect(from + last, batch[last]), now);
      GrownTrans(b, c, CallAll(b, batch, now, effect, from), now);
    }
  }

  // ----- the timer softirq

  ghost function Callbacks(c: seq<Shot>): (r: seq<nat>)
    ensures |r| == |c| && forall i | 0 <= i < |c| :: r[i] == c[i].callback
  {
    seq(|c|, i requires 0 <= i < |c| => c[i].callback)
  }

  ghost function BatchSize(c: seq<Shot>, now: nat): (k: nat)
    ensures k <= Due(c, now)
  {
    if Due(c, now) < BATCH then Due(c, now) else BATCH
  }

  /** One batch: up to ten expired timers leave, then their callbacks run. */
  ghost function OneBatch(b: Book, now: nat, effect: (nat, nat) -> seq<Arm>, from: nat): Book {
    var k := BatchSize(b.pending, now);
    CallAll(b.(pending := b.pending[k..], spare := b.spare + k), Callbacks(b.pending[..k]), now, effect, from)
  }

  lemma {:induction false} DueBehind(c: seq<Shot>, now: nat, k: nat)
    requires k <= Due(c, now)
    ensures Due(c[k..], now) == Due(c, now) - k
  {
    if k > 0 {
      DueBehind(c[1..], now, k - 1);
      assert c[1..][k - 1..] == c[k..];
    } else {
      assert c[0..] == c;
    }
  }

  lemma OneBatchDue(b: Book, now: nat, effect: (nat, nat) -> seq<Arm>, from: nat)
    requires FutureOnly(effect, now)
    ensures Due(OneBatch(b, now, effect, from).pending, now) == Due(b.pending, now) - BatchSize(b.pending, now)
  {
    hide FutureOnly, CallAll, Due;
    var k := BatchSize(b.pending, now);
    DueBehind(b.pending, now, k);
    CallAllGrows(b.(pending := b.pending[k..], spare := b.spare + k), Callbacks(b.pending[..k]), now, effect, from);
  }

  /** Batches until one is not full. */
  ghost function RunAll(b: Book, now: nat, effect: (nat, nat) -> seq<Arm>, from: nat): Book
    requires FutureOnly(effect, now)
    decreases Due(b.pending, now)
  {
    OneBatchDue(b, now, effect, from);
    if Due(b.pending, now) == 0 then b
    else if BatchSize(b.pending, now) < BATCH then OneBatch(b, now, effect, from)
    else RunAll(OneBatch(b, now, effect, from), now, effect, from + BATCH)
  }

  /** What a run leaves: the timers that had not expired and exactly those set meanwhile, none of them due. */
  ghost predicate Settled(b: Book, b': Book, now: nat) {
    && b.log <= b'.log && Due(b'.pending, now) == 0
    && (forall i | |b.log| <= i < |b'.log| :: now < b'.log[i].deadline)
    && multiset(b'.pending) == multiset(b.pending[Due(b.pending, now)..]) + multiset(b'.log[|b.log|..])
  }

  /** What one batch leaves beyond what is still due. */
  ghost predicate Batched(b: Book, c: Book, now: nat) {
    && b.log <= c.log && (forall i | |b.log| <= i < |c.log| :: now < c.log[i].deadline)
    && multiset(c.pending[Due(c.pending, now)..])
       == multiset(b.pending[Due(b.pending, now)..]) + multiset(c.log[|b.log|..])
  }

  lemma {:induction false} RunSettles(b: Book, now: nat, effect: (nat, nat) -> seq<Arm>, from: nat)
    requires FutureOnly(effect, now)
    ensures Settled(b, RunAll(b, now, effect, from), now)
    decreases Due(b.pending, now)
  {
    hide FutureOnly, OneBatch, Settled, Batched, Due;
    OneBatchDue(b, now, effect, from);
    if Due(b.pending, now) == 0 {
      NothingDue(b, now);
    } else {
      var c := OneBatch(b, now, effect, from);
      BatchSettles(b, now, effect, from);
      if BatchSize(b.pending, now) == BATCH {
        RunSettles(c, now, effect, from + BATCH);
        SettledBehind(b, c, RunAll(c, now, effect, from + BATCH), now);
      } else {
        LastBatch(b, c, now);
      }
    }
  }

  lemma NothingDue(b: Book, now: nat)
    requires Due(b.pending, now) == 0
    ensures Settled(b, b, now)
  {
    assert b.log[|b.log|..] == [] && b.pending[0..] == b.pending;
  }

  lemma LastBatch(b: Book, c: Book, now: nat)
    requires Batched(b, c, now) && Due(c.pending, now) == 0
    ensures Settled(b, c, now)
  {
    assert c.pending[0..] == c.pending;
  }

  lemma SettledBehind(b: Book, c: Book, d: Book, now: nat)
    requires Batched(b, c, now) && Settled(c, d, now)
    ensures Settled(b, d, now)
  {
    hide Due;
    assert d.log[|b.log|..] == c.log[|b.log|..] + d.log[|c.log|..];
  }

  lemma BatchSettles(b: Book, now: nat, effect: (nat, nat) -> seq<Arm>, from: nat)
    requires FutureOnly(effect, now)
    ensures Batched(b, OneBatch(b, now, effect, from), now)
  {
    hide FutureOnly, CallAll, Grown, Due;
    var k := BatchSize(b.pending, now);
    var b1 := b.(pending := b.pending[k..], spare := b.spare + k);
    DueBehind(b.pending, now, k);
    CallAllGrows(b1, Callbacks(b.pending[..k]), now, effect, from);
    var c := OneBatch(b, now, effect, from);
    GrownBehind(b1, c, now);
    DropTwice(b.pending, k, Due(b.pending, now));
    assert Batched(b1, c, now) && b1.log == b.log;
  }

  lemma DropTwice(c: seq<Shot>, k: nat, m: nat)
    requires k <= m <= |c|
    ensures c[k..][m - k..] == c[m..]
  {
  }

  lemma GrownBehind(b: Book, c: Book, now: nat)
    requires Grown(b, c, now)
    ensures Batched(b, c, now)
  {
    hide Due;
    var m := Due(b.pending, now);
    assert c.pending == c.pending[..m] + c.pending[m..];
    assert b.pending == b.pending[..m] + b.pending[m..];
    Cancel(multiset(b.pending[..m]), multiset(c.pending[m..]), multiset(b.pending[m..]) + multiset(c.log[|b.log|..]));
  }

  lemma Cancel(a: multiset<Shot>, x: multiset<Shot>, y: multiset<Shot>)
    requires a + x == a + y
    ensures x == y
  {
    assert x == a + x - a;
    assert y == a + y - a;
  }

  /** What the batches behind the first fire continues what the first fires. */
  lemma FiredAll(b: Book, now: nat, effect: (nat, nat) -> seq<Arm>, from: nat)
    requires FutureOnly(effect, now)
    ensures var k, due, c := BatchSize(b.pending, now), Due(b.pending, now), OneBatch(b, now, effect, from);
      && Due(c.pending, now) == due - k
      && Callbacks(b.pending[..k]) + Callbacks(c.pending[..due - k]) == Callbacks(b.pending[..due])
  {
    hide FutureOnly, OneBatch, Due;
    var k, due, c := BatchSize(b.pending, now), Due(b.pending, now), OneBatch(b, now, effect, from);
    OneBatchDue(b, now, effect, from);
    forall i | k <= i < due ensures c.pending[i - k] == b.pending[i] {
      BatchKeepsDue(b, now, effect, from, i);
    }
  }

  // ----- a timer that re-arms itself

  ghost predicate Logged(b: Book, from: nat, s: Shot) {
    exists i :: from <= i < |b.log| && b.log[i] == s
  }

  lemma LoggedStays(b: Book, c: Book, from: nat, s: Shot)
    requires Logged(b, from, s) && b.log <= c.log
    ensures Logged(c, from, s)
  {
    var i :| from <= i < |b.log| && b.log[i] == s;
    assert c.log[i] == s;
  }

  lemma {:induction false} ArmIsLogged(b: Book, arms: seq<Arm>, now: nat, j: nat)
    requires FutureArms(arms, now) && j < |arms| && arms[j].memory
    ensures Logged(ArmAll(b, arms, now), |b.log|, Shot(now + arms[j].msec, arms[j].callback))
  {
    hide Logged, Set;
    var last := |arms| - 1;
    var c := ArmAll(b, arms[..last], now);
    ArmAllGrows(b, arms[..last], now);
    assert b.log <= c.log;
    if j == last {
      NoWrap(arms[j].msec, now);
      LastLogged(c, Shot(now + arms[j].msec, arms[j].callback), |b.log|);
    } else {
      ArmIsLogged(b, arms[..last], now, j);
      SetLogs(c, Shot((arms[last].msec + now) % U64, arms[last].callback), arms[last].memory);
      LoggedStays(c, ArmAll(b, arms, now), |b.log|, Shot(now + arms[j].msec, arms[j].callback));
    }
  }

  lemma NoWrap(msec: nat, now: nat)
    requires now + msec < U64
    ensures (msec + now) % U64 == now + msec
  {
  }

  lemma SetLogs(b: Book, s: Shot, memory: bool)
    ensures b.log <= Set(b, s, memory).log
  {
  }

  lemma LastLogged(b: Book, s: Shot, from: nat)
    requires from <= |b.log|
    ensures Logged(Set(b, s, true), from, s)
  {
    assert Set(b, s, true).log[|b.log|] == s;
  }

  lemma {:induction false} CallIsLogged(b: Book, batch: seq<nat>, now: nat, effect: (nat, nat) -> seq<Arm>, from: nat,
                                        i: nat, j: nat)
    requires FutureOnly(effect, now) && i < |batch| && j < |effect(from + i, batch[i])|
    requires effect(from + i, batch[i])[j].memory
    ensures var arm := effect(from + i, batch[i])[j];
      Logged(CallAll(b, batch, now, effect, from), |b.log|, Shot(now + arm.msec, arm.callback))
  {
    hide Logged, ArmAll;
    var last := |batch| - 1;
    var c := CallAll(b, batch[..last], now, effect, from);
    var arms := effect(from + last, batch[last]);
    CallAllGrows(b, batch[..last], now, effect, from);
    ArmAllGrows(c, arms, now);
    if i == last {
      ArmIsLogged(c, arms, now, j);
      LoggedLater(ArmAll(c, arms, now), |b.log|, |c.log|, Shot(now + arms[j].msec, arms[j].callback));
    } else {
      CallIsLogged(b, batch[..last], now, effect, from, i, j);
      var arm := effect(from + i, batch[i])[j];
      LoggedStays(c, CallAll(b, batch, now, effect, from), |b.log|, Shot(now + arm.msec, arm.callback));
    }
  }

  lemma LoggedLater(b: Book, from: nat, later: nat, s: Shot)
    requires from <= later && Logged(b, later, s)
    ensures Logged(b, from, s)
  {
  }

  /** What the `i`-th expired timer's callback re-arms, given memory, is pending when the run is over. */
  lemma {:induction false} RearmedIsPending(b: Book, now: nat, effect: (nat, nat) -> seq<Arm>, from: nat, i: nat,
                                            j: nat)
    requires FutureOnly(effect, now) && i < Due(b.pending, now)
    requires j < |effect(from + i, b.pending[i].callback)| && effect(from + i, b.pending[i].callback)[j].memory
    ensures var arm := effect(from + i, b.pending[i].callback)[j];
      Shot(now + arm.msec, arm.callback) in RunAll(b, now, effect, from).pending
  {
    hide FutureOnly;
    var arm, b' := effect(from + i, b.pending[i].callback)[j], RunAll(b, now, effect, from);
    RearmedIsLogged(b, now, effect, from, i, j);
    RunSettles(b, now, effect, from);
    var n :| |b.log| <= n < |b'.log| && b'.log[n] == Shot(now + arm.msec, arm.callback);
    assert b'.log[|b.log|..][n - |b.log|] == b'.log[n];
    assert b'.log[n] in multiset(b'.pending);
  }

  lemma {:induction false} RearmedIsLogged(b: Book, now: nat, effect: (nat, nat) -> seq<Arm>, from: nat, i: nat, j: nat)
    requires FutureOnly(effect, now) && i < Due(b.pending, now)
    requires j < |effect(from + i, b.pending[i].callback)| && effect(from + i, b.pending[i].callback)[j].memory
    ensures var arm := effect(from + i, b.pending[i].callback)[j];
      Logged(RunAll(b, now, effect, from), |b.log|, Shot(now + arm.msec, arm.callback))
    decreases Due(b.pending, now)
  {
    hide FutureOnly, CallAll, Logged, Due, Grown;
    var k := BatchSize(b.pending, now);
    var arm, c := effect(from + i, b.pending[i].callback)[j], OneBatch(b, now, effect, from);
    OneBatchDue(b, now, effect, from);
    BatchSettles(b, now, effect, from);
    assert b.log <= c.log;
    hide Batched;
    if i < k {
      assert b.pending[..k][i] == b.pending[i];
      CallIsLogged(b.(pending := b.pending[k..], spare := b.spare + k), Callbacks(b.pending[..k]), now, effect, from,
                   i, j);
      if k == BATCH {
        RunSettles(c, now, effect, from + BATCH);
        assert c.log <= RunAll(c, now, effect, from + BATCH).log;
        LoggedStays(c, RunAll(c, now, effect, from + BATCH), |b.log|, Shot(now + arm.msec, arm.callback));
      }
    } else {
      BatchKeepsDue(b, now, effect, from, i);
      RearmedIsLogged(c, now, effect, from + BATCH, i - BATCH, j);
      LoggedLater(RunAll(c, now, effect, from + BATCH), |b.log|, |c.log|, Shot(now + arm.msec, arm.callback));
    }
  }

  // ----- the order in which callbacks re-arm

  ghost predicate MemoryOnly(effect: (nat, nat) -> seq<Arm>) {
    forall n: nat, f: nat :: AllMemory(effect(n, f))
  }

  ghost predicate AllMemory(arms: seq<Arm>) {
    forall j | 0 <= j < |arms| :: arms[j].memory
  }

  /** The timers that one call sets, in order. */
  ghost function ArmShots(arms: seq<Arm>, now: nat): (r: seq<Shot>)
    ensures |r| == |arms| && forall j | 0 <= j < |arms| :: r[j] == Shot(now + arms[j].msec, arms[j].callback)
  {
    seq(|arms|, j requires 0 <= j < |arms| => Shot(now + arms[j].msec, arms[j].callback))
  }

  /** The timers that the calls of these functions set: those of an earlier call before those of a later one. */
  ghost function CallShots(fs: seq<nat>, effect: (nat, nat) -> seq<Arm>, from: nat, now: nat): seq<Shot> {
    if fs == [] then [] else ArmShots(effect(from, fs[0]), now) + CallShots(fs[1..], effect, from + 1, now)
  }

  lemma {:induction false} CallShotsSnoc(fs: seq<nat>, f: nat, effect: (nat, nat) -> seq<Arm>, from: nat, now: nat)
    ensures CallShots(fs + [f], effect, from, now)
            == CallShots(fs, effect, from, now) + ArmShots(effect(from + |fs|, f), now)
    decreases |fs|
  {
    hide ArmShots;
    var all := fs + [f];
    if fs == [] {
      assert all[1..] == [];
    } else {
      assert all[1..] == fs[1..] + [f] && all[0] == fs[0];
      CallShotsSnoc(fs[1..], f, effect, from + 1, now);
    }
  }

  lemma {:induction false} CallShotsJoin(fs: seq<nat>, gs: seq<nat>, effect: (nat, nat) -> seq<Arm>, from: nat,
                                         now: nat)
    ensures CallShots(fs + gs, effect, from, now)
            == CallShots(fs, effect, from, now) + CallShots(gs, effect, from + |fs|, now)
    decreases |fs|
  {
    hide ArmShots;
    if fs == [] {
      assert fs + gs == gs;
    } else {
      assert (fs + gs)[1..] == fs[1..] + gs && (fs + gs)[0] == fs[0];
      CallShotsJoin(fs[1..], gs, effect, from + 1, now);
    }
  }

  lemma SetAdds(b: Book, s: Shot)
    ensures Set(b, s, true).log == b.log + [s]
  {
  }

  lemma {:induction false} ArmAllLogs(b: Book, arms: seq<Arm>, now: nat)
    requires FutureArms(arms, now) && AllMemory(arms)
    ensures ArmAll(b, arms, now).log == b.log + ArmShots(arms, now)
  {
    hide Set;
    if arms == [] {
      assert ArmShots(arms, now) == [];
    } else {
      var last := |arms| - 1;
      ArmAllLogs(b, arms[..last], now);
      NoWrap(arms[last].msec, now);
      SetAdds(ArmAll(b, arms[..last], now), Shot(now + arms[last].msec, arms[last].callback));
      assert ArmShots(arms, now) == ArmShots(arms[..last], now) + [Shot(now + arms[last].msec, arms[last].callback)];
    }
  }

  lemma {:induction false} CallAllLogs(b: Book, fs: seq<nat>, now: nat, effect: (nat, nat) -> seq<Arm>, from: nat)
    requires FutureOnly(effect, now) && MemoryOnly(effect)
    ensures CallAll(b, fs, now, effect, from).log == b.log + CallShots(fs, effect, from, now)
  {
    hide ArmAll, ArmShots, FutureArms, AllMemory;
    if fs != [] {
      var last := |fs| - 1;
      var c := CallAll(b, fs[..last], now, effect, from);
      CallAllLogs(b, fs[..last], now, effect, from);
      ArmAllLogs(c, effect(from + last, fs[last]), now);
      assert fs == fs[..last] + [fs[last]];
      CallShotsSnoc(fs[..last], fs[last], effect, from, now);
    }
  }

  /**
   Given memory, a run sets exactly the timers that the expired timers' functions ask for, in the order in
   which the timers expired and, for one function, in the order of its calls.
   */
  lemma {:induction false} RunLogs(b: Book, now: nat, effect: (nat, nat) -> seq<Arm>, from: nat)
    requires FutureOnly(effect, now) && MemoryOnly(effect)
    ensures RunAll(b, now, effect, from).log
            == b.log + CallShots(Callbacks(b.pending[..Due(b.pending, now)]), effect, from, now)
    decreases Due(b.pending, now)
  {
    hide FutureOnly, MemoryOnly, CallAll, Due, Grown, CallShots;
    var k, due := BatchSize(b.pending, now), Due(b.pending, now);
    NoShots(effect, from, now);
    OneBatchDue(b, now, effect, from);
    if due == 0 {
      assert Callbacks(b.pending[..0]) == [];
    } else {
      var b1, fs := b.(pending := b.pending[k..], spare := b.spare + k), Callbacks(b.pending[..k]);
      var c := OneBatch(b, now, effect, from);
      CallAllLogs(b1, fs, now, effect, from);
      if k == BATCH {
        RunLogs(c, now, effect, from + BATCH);
        FiredAll(b, now, effect, from);
        CallShotsJoin(fs, Callbacks(c.pending[..due - k]), effect, from, now);
      }
    }
  }

  lemma NoShots(effect: (nat, nat) -> seq<Arm>, from: nat, now: nat)
    ensures CallShots([], effect, from, now) == []
  {
  }

  /** Expired timers left for the next batch are the same ones, in order. */
  lemma BatchKeepsDue(b: Book, now: nat, effect: (nat, nat) -> seq<Arm>, from: nat, i: nat)
    requires FutureOnly(effect, now) && BatchSize(b.pending, now) <= i < Due(b.pending, now)
    ensures var k, c := BatchSize(b.pending, now), OneBatch(b, now, effect, from);
      i - k < Due(c.pending, now) && c.pending[i - k] == b.pending[i]
  {
    hide FutureOnly, CallAll, Due;
    var k, due := BatchSize(b.pending, now), Due(b.pending, now);
    var b1 := b.(pending := b.pending[k..], spare := b.spare + k);
    DueBehind(b.pending, now, k);
    CallAllGrows(b1, Callbacks(b.pending[..k]), now, effect, from);
    var c := OneBatch(b, now, effect, from);
    assert c.pending[..due - k][i - k] == b1.pending[..due - k][i - k];
  }
}
