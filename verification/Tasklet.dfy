/**
 The tasklet protocol of kernel/tasklet.c and include/yaos/tasklet.h as a state machine whose actions
 are the source's atomic steps. A queue is one CPU's list of one priority, with its softirq worker; any
 number of threads schedule, disable and enable tasklets. Memory is sequentially consistent.
 */
module Tasklet {

  import opened Options
  import opened Chains

  /** Where a queue's tail pointer points: at the queue's head, or at the next field of a tasklet. */
  datatype Tail = AtHead | AtNext(tasklet: nat)

  /** Where the worker of a queue stands; `t` is the tasklet it has in hand or runs. */
  datatype Pc =
    | Rest                     // no softirq running for this queue
    | Woken                    // pending bit taken, action about to detach the list
    | Loop                     // before the loop test
    | TryLock(t: nat)          // before the test-and-set of RUN
    | Locked(t: nat)           // before the read of the disable count
    | Clearing(t: nat)         // count was zero, before the test-and-clear of SCHED
    | Running(t: nat)          // function running, RUN still set
    | Refused(t: nat)          // count was not zero, before RUN is cleared
    | Requeue(t: nat)          // before putting the tasklet back

  /** A thread between setting SCHED and appending the tasklet to the queue of its CPU. */
  datatype Caller = Caller(t: nat, queue: nat)

  /** A disable that has not been undone: without waiting, waiting for RUN, or returned. */
  datatype Slot = Free | NoSync(t: nat) | Waiting(t: nat) | Off(t: nat)

  datatype State = State(
    next: seq<Option<nat>>, sched: seq<bool>, run: seq<bool>, count: seq<nat>,
    head: seq<Option<nat>>, tail: seq<Tail>, raised: seq<bool>, pc: seq<Pc>, list: seq<Option<nat>>,
    callers: seq<Option<Caller>>, slots: seq<Slot>, bug: bool)

  datatype Action =
    | Request(t: nat, queue: nat, caller: nat)
    | Enqueue(caller: nat)
    | Wake(q: nat) | Take(q: nat) | Pick(q: nat) | Lock(q: nat) | ReadCount(q: nat) | Start(q: nat)
    | Finish(q: nat) | Release(q: nat) | PutBack(q: nat)
    | Disable(t: nat, slot: nat, sync: bool) | Observe(slot: nat) | Enable(slot: nat)

  predicate Shaped(s: State) {
    && |s.sched| == |s.run| == |s.count| == |s.next|
    && |s.tail| == |s.raised| == |s.pc| == |s.list| == |s.head|
  }

  predicate Enabled(s: State, a: Action)
    requires Shaped(s)
  {
    match a
    case Request(t, q, p) => t < |s.next| && q < |s.head| && p < |s.callers| && s.callers[p] == None
    case Enqueue(p) =>
      && p < |s.callers| && s.callers[p].Some? && s.callers[p].value.t < |s.next|
      && s.callers[p].value.queue < |s.head|
    case Wake(q) => q < |s.head| && s.pc[q] == Rest && s.raised[q]
    case Take(q) => q < |s.head| && s.pc[q] == Woken
    case Pick(q) => q < |s.head| && s.pc[q] == Loop && (s.list[q].Some? ==> s.list[q].value < |s.next|)
    case Lock(q) => q < |s.head| && s.pc[q].TryLock? && s.pc[q].t < |s.next|
    case ReadCount(q) => q < |s.head| && s.pc[q].Locked? && s.pc[q].t < |s.next|
    case Start(q) => q < |s.head| && s.pc[q].Clearing? && s.pc[q].t < |s.next|
    case Finish(q) => q < |s.head| && s.pc[q].Running? && s.pc[q].t < |s.next|
    case Release(q) => q < |s.head| && s.pc[q].Refused? && s.pc[q].t < |s.next|
    case PutBack(q) => q < |s.head| && s.pc[q].Requeue? && s.pc[q].t < |s.next|
    case Disable(t, d, _) => t < |s.next| && d < |s.slots| && s.slots[d] == Free
    case Observe(d) => d < |s.slots| && s.slots[d].Waiting? && s.slots[d].t < |s.next|
    case Enable(d) =>
      && d < |s.slots| && (s.slots[d].NoSync? || s.slots[d].Off?) && s.slots[d].t < |s.next|
      && s.count[s.slots[d].t] > 0
  }

  /** Append with interrupts off: the tail pointer is written through, then moved, and the softirq raised. */
  function Append(s: State, q: nat, t: nat): State
    requires Shaped(s) && q < |s.head| && t < |s.next| && (s.tail[q].AtNext? ==> s.tail[q].tasklet < |s.next|)
  {
    var next := s.next[t := None];
    var linked := if s.tail[q].AtNext? then next[s.tail[q].tasklet := Some(t)] else next;
    var head := if s.tail[q].AtHead? then s.head[q := Some(t)] else s.head;
    s.(next := linked, head := head, tail := s.tail[q := AtNext(t)], raised := s.raised[q := true])
  }

  ghost predicate TailsOk(s: State)
    requires Shaped(s)
  {
    forall q | 0 <= q < |s.tail| :: s.tail[q].AtNext? ==> s.tail[q].tasklet < |s.next|
  }

  /** The state after an atomic step. */
  ghost function After(s: State, a: Action): State
    requires Shaped(s) && TailsOk(s) && Enabled(s, a)
  {
    match a
    case Request(t, q, p) =>
      if s.sched[t] then s
      else s.(sched := s.sched[t := true], callers := s.callers[p := Some(Caller(t, q))])
    case Enqueue(p) =>
      var c := s.callers[p].value;
      Append(s, c.queue, c.t).(callers := s.callers[p := None])
    case Wake(q) => s.(raised := s.raised[q := false], pc := s.pc[q := Woken])
    case Take(q) =>
      s.(list := s.list[q := s.head[q]], head := s.head[q := None], tail := s.tail[q := AtHead], pc := s.pc[q := Loop])
    case Pick(q) =>
      if s.list[q].None? then s.(pc := s.pc[q := Rest])
      else s.(pc := s.pc[q := TryLock(s.list[q].value)], list := s.list[q := s.next[s.list[q].value]])
    case Lock(q) =>
      var t := s.pc[q].t;
      if s.run[t] then s.(pc := s.pc[q := Requeue(t)])
      else s.(run := s.run[t := true], pc := s.pc[q := Locked(t)])
    case ReadCount(q) =>
      var t := s.pc[q].t;
      s.(pc := s.pc[q := if s.count[t] == 0 then Clearing(t) else Refused(t)])
    case Start(q) =>
      var t := s.pc[q].t;
      s.(sched := s.sched[t := false], pc := s.pc[q := Running(t)], bug := s.bug || !s.sched[t])
    case Finish(q) => s.(run := s.run[s.pc[q].t := false], pc := s.pc[q := Loop])
    case Release(q) => s.(run := s.run[s.pc[q].t := false], pc := s.pc[q := Requeue(s.pc[q].t)])
    case PutBack(q) => Append(s, q, s.pc[q].t).(pc := s.pc[q := Loop])
    case Disable(t, d, sync) =>
      s.(count := s.count[t := s.count[t] + 1], slots := s.slots[d := if sync then Waiting(t) else NoSync(t)])
    case Observe(d) =>
      if s.run[s.slots[d].t] then s else s.(slots := s.slots[d := Off(s.slots[d].t)])
    case Enable(d) =>
      var t := s.slots[d].t;
      s.(count := s.count[t := s.count[t] - 1], slots := s.slots[d := Free])
  }

  // ----- what the state stands for

  /** Who has a scheduled tasklet. */
  datatype Place = Idle | Pending(caller: nat) | Queued(q: nat) | Listed(q: nat) | InHand(q: nat)

  /** Contents of each queue and of each worker's detached list, each tasklet's place, and who set RUN. */
  datatype Abs = Abs(place: seq<Place>, contents: seq<seq<nat>>, rest: seq<seq<nat>>, holder: seq<Option<nat>>)

  /** The tasklet that is scheduled and in the worker's hand. */
  ghost function Hand(pc: Pc): Option<nat> {
    if pc.TryLock? || pc.Locked? || pc.Clearing? || pc.Refused? || pc.Requeue? then Some(pc.t) else None
  }

  /** The tasklet on which the worker set RUN. */
  ghost function Holds(pc: Pc): Option<nat> {
    if pc.Locked? || pc.Clearing? || pc.Running? || pc.Refused? then Some(pc.t) else None
  }

  /** The worker has passed the disable test and will run, or runs, the function. */
  ghost predicate Committed(pc: Pc) {
    pc.Clearing? || pc.Running?
  }

  ghost function Held(slots: seq<Slot>, t: nat): nat {
    if slots == [] then 0
    else Held(slots[..|slots| - 1], t) + Hold(slots[|slots| - 1], t)
  }

  ghost function Hold(d: Slot, t: nat): nat {
    if !d.Free? && d.t == t then 1 else 0
  }

  ghost predicate Sized(s: State, a: Abs) {
    && Shaped(s) && |a.place| == |a.holder| == |s.next| && |a.contents| == |a.rest| == |s.head|
  }

  ghost predicate QueueOk(s: State, a: Abs, q: nat)
    requires Sized(s, a) && q < |s.head|
  {
    var c := a.contents[q];
    && Path(s.next, s.head[q], c) && NoDup(c) && AllAt(a.place, c, Queued(q))
    && s.tail[q] == (if c == [] then AtHead else AtNext(c[|c| - 1]))
    && (c != [] ==> s.raised[q] || s.pc[q] == Woken)
  }

  ghost predicate WorkerOk(s: State, a: Abs, q: nat)
    requires Sized(s, a) && q < |s.head|
  {
    && Path(s.next, s.list[q], a.rest[q]) && NoDup(a.rest[q]) && AllAt(a.place, a.rest[q], Listed(q))
    && (s.pc[q] == Rest || s.pc[q] == Woken ==> a.rest[q] == [])
    && (Hand(s.pc[q]).Some? ==> s.pc[q].t < |s.next| && a.place[s.pc[q].t] == InHand(q))
    && (Holds(s.pc[q]).Some? ==> s.pc[q].t < |s.next| && a.holder[s.pc[q].t] == Some(q))
  }

  ghost predicate CallerOk(s: State, a: Abs, p: nat)
    requires Sized(s, a) && p < |s.callers|
  {
    s.callers[p].Some? ==>
      && s.callers[p].value.t < |s.next| && s.callers[p].value.queue < |s.head|
      && a.place[s.callers[p].value.t] == Pending(p)
  }

  ghost predicate PlaceOk(s: State, a: Abs, t: nat)
    requires Sized(s, a) && t < |s.next|
  {
    match a.place[t]
    case Idle => true
    case Pending(p) => p < |s.callers| && s.callers[p].Some? && s.callers[p].value.t == t
    case Queued(q) => q < |s.head| && t in a.contents[q]
    case Listed(q) => q < |s.head| && t in a.rest[q]
    case InHand(q) => q < |s.head| && Hand(s.pc[q]) == Some(t)
  }

  ghost predicate TaskOk(s: State, a: Abs, t: nat)
    requires Sized(s, a) && t < |s.next|
  {
    && (s.sched[t] <==> a.place[t] != Idle) && PlaceOk(s, a, t)
    && (s.run[t] <==> a.holder[t].Some?)
    && (a.holder[t].Some? ==> a.holder[t].value < |s.head| && Holds(s.pc[a.holder[t].value]) == Some(t))
    && s.count[t] == Held(s.slots, t)
  }

  /** A returned disable: whoever holds RUN has not passed the disable test. */
  ghost predicate SlotOk(s: State, a: Abs, d: nat)
    requires Sized(s, a) && d < |s.slots|
  {
    && (!s.slots[d].Free? ==> s.slots[d].t < |s.next|)
    && (s.slots[d].Off? ==> forall q | 0 <= q < |s.pc| :: Committed(s.pc[q]) ==> s.pc[q].t != s.slots[d].t)
  }

  ghost predicate Queues(s: State, a: Abs)
    requires Sized(s, a)
  {
    forall q | 0 <= q < |s.head| :: QueueOk(s, a, q)
  }

  ghost predicate Workers(s: State, a: Abs)
    requires Sized(s, a)
  {
    forall q | 0 <= q < |s.head| :: WorkerOk(s, a, q)
  }

  ghost predicate Callers(s: State, a: Abs)
    requires Sized(s, a)
  {
    forall p | 0 <= p < |s.callers| :: CallerOk(s, a, p)
  }

  ghost predicate Tasks(s: State, a: Abs)
    requires Sized(s, a)
  {
    forall t | 0 <= t < |s.next| :: TaskOk(s, a, t)
  }

  ghost predicate Slots(s: State, a: Abs)
    requires Sized(s, a)
  {
    forall d | 0 <= d < |s.slots| :: SlotOk(s, a, d)
  }

  ghost predicate Inv(s: State, a: Abs) {
    Sized(s, a) && Queues(s, a) && Workers(s, a) && Callers(s, a) && Tasks(s, a) && Slots(s, a) && !s.bug
  }

  // ----- frames

  ghost predicate KeptAt(s: State, a: Abs, s': State, a': Abs, at: Place)
    requires Sized(s, a) && Sized(s', a') && |s'.next| == |s.next|
  {
    forall x | 0 <= x < |s.next| && a.place[x] == at :: s'.next[x] == s.next[x] && a'.place[x] == at
  }

  lemma QueueFrame(s: State, a: Abs, s': State, a': Abs, q: nat)
    requires Sized(s, a) && Sized(s', a') && |s'.next| == |s.next| && q < |s.head| == |s'.head| && QueueOk(s, a, q)
    requires s'.head[q] == s.head[q] && s'.tail[q] == s.tail[q] && a'.contents[q] == a.contents[q]
    requires KeptAt(s, a, s', a', Queued(q))
    requires a.contents[q] != [] ==> s'.raised[q] || s'.pc[q] == Woken
    ensures QueueOk(s', a', q)
  {
  }

  lemma WorkerFrame(s: State, a: Abs, s': State, a': Abs, q: nat)
    requires Sized(s, a) && Sized(s', a') && |s'.next| == |s.next| && q < |s.head| == |s'.head| && WorkerOk(s, a, q)
    requires s'.list[q] == s.list[q] && s'.pc[q] == s.pc[q] && a'.rest[q] == a.rest[q]
    requires KeptAt(s, a, s', a', Listed(q)) && KeptAt(s, a, s', a', InHand(q))
    requires Holds(s.pc[q]).Some? ==> s.pc[q].t < |s.next| && a'.holder[s.pc[q].t] == a.holder[s.pc[q].t]
    ensures WorkerOk(s', a', q)
  {
  }

  // ----- steps that move no tasklet between lists

  /** Worker `q` moved on, or a bit of tasklet `t` changed; the lists did not. */
  ghost predicate ListsKept(s: State, a: Abs, s': State, a': Abs) {
    && Sized(s, a) && Sized(s', a') && s'.next == s.next && s'.head == s.head && s'.tail == s.tail && s'.list == s.list
    && a'.contents == a.contents && a'.rest == a.rest
  }

  lemma RequestOk(s: State, a: Abs, t: nat, q: nat, p: nat)
    requires Inv(s, a) && TailsOk(s) && Enabled(s, Request(t, q, p)) && !s.sched[t]
    ensures Inv(After(s, Request(t, q, p)), a.(place := a.place[t := Pending(p)]))
  {
    hide Path, NoDup, AllAt, Held;
    var s', a' := After(s, Request(t, q, p)), a.(place := a.place[t := Pending(p)]);
    assert TaskOk(s, a, t);
    forall r | 0 <= r < |s.head| ensures QueueOk(s', a', r) && WorkerOk(s', a', r) {
      assert QueueOk(s, a, r) && WorkerOk(s, a, r);
      QueueFrame(s, a, s', a', r);
      WorkerFrame(s, a, s', a', r);
    }
    forall x | 0 <= x < |s.next| ensures TaskOk(s', a', x) {
      assert TaskOk(s, a, x);
    }
    forall r | 0 <= r < |s.callers| ensures CallerOk(s', a', r) {
      assert CallerOk(s, a, r);
    }
    forall d | 0 <= d < |s.slots| ensures SlotOk(s', a', d) {
      assert SlotOk(s, a, d);
    }
  }

  /** Steps of a worker that leave every list, every place and every caller alone. */
  lemma WorkerStepOk(s: State, a: Abs, s': State, a': Abs, q: nat)
    requires Inv(s, a) && q < |s.head| && ListsKept(s, a, s', a') && a'.place == a.place
    requires s' == s.(pc := s'.pc, run := s'.run, raised := s'.raised) && s'.pc == s.pc[q := s'.pc[q]]
    requires |s'.raised| == |s.raised|
    requires forall r | 0 <= r < |s.head| && r != q :: s'.raised[r] == s.raised[r]
    requires a.contents[q] != [] ==> s'.raised[q] || s'.pc[q] == Woken
    requires Hand(s'.pc[q]) == Hand(s.pc[q]) && (s'.pc[q] == Rest || s'.pc[q] == Woken ==> a.rest[q] == [])
    requires Committed(s'.pc[q]) ==> Committed(s.pc[q]) || (s'.pc[q].t < |s.count| && s.count[s'.pc[q].t] == 0)
    requires Committed(s'.pc[q]) && Committed(s.pc[q]) ==> s'.pc[q].t == s.pc[q].t
    requires forall x | 0 <= x < |s.next| :: s'.run[x] <==> a'.holder[x].Some?
    requires forall x | 0 <= x < |s.next| && a'.holder[x] != a.holder[x] ::
      a.holder[x] in {None, Some(q)} && a'.holder[x] in {None, Some(q)}
    requires forall x | 0 <= x < |s.next| && a'.holder[x] == Some(q) :: Holds(s'.pc[q]) == Some(x)
    requires Holds(s'.pc[q]).Some? ==> s'.pc[q].t < |s.next| && a'.holder[s'.pc[q].t] == Some(q)
    ensures Inv(s', a')
  {
    hide Path, NoDup, AllAt, Held;
    forall r | 0 <= r < |s.head| ensures QueueOk(s', a', r) && WorkerOk(s', a', r) {
      assert QueueOk(s, a, r) && WorkerOk(s, a, r);
      QueueFrame(s, a, s', a', r);
      if r != q {
        WorkerFrame(s, a, s', a', r);
      }
    }
    forall x | 0 <= x < |s.next| ensures TaskOk(s', a', x) {
      assert TaskOk(s, a, x);
    }
    forall r | 0 <= r < |s.callers| ensures CallerOk(s', a', r) {
      assert CallerOk(s, a, r);
    }
    forall d | 0 <= d < |s.slots| ensures SlotOk(s', a', d) {
      assert SlotOk(s, a, d);
      if s.slots[d].Off? {
        HeldAt(s.slots, d);
      }
      if Committed(s'.pc[q]) {
        assert TaskOk(s, a, s'.pc[q].t);
      }
    }
  }

  lemma {:induction false} HeldAt(slots: seq<Slot>, d: nat)
    requires d < |slots| && !slots[d].Free?
    ensures Held(slots, slots[d].t) >= 1
  {
    var last := |slots| - 1;
    if d < last {
      HeldAt(slots[..last], d);
    }
  }

  lemma RunBits(s: State, a: Abs)
    requires Sized(s, a) && Tasks(s, a)
    ensures forall x | 0 <= x < |s.next| :: (s.run[x] <==> a.holder[x].Some?) &&
              (a.holder[x].Some? ==> a.holder[x].value < |s.head| && Holds(s.pc[a.holder[x].value]) == Some(x))
  {
    forall x | 0 <= x < |s.next| ensures TaskOk(s, a, x) {
    }
    hide PlaceOk, Held;
    forall x | 0 <= x < |s.next|
      ensures (s.run[x] <==> a.holder[x].Some?) &&
              (a.holder[x].Some? ==> a.holder[x].value < |s.head| && Holds(s.pc[a.holder[x].value]) == Some(x))
    {
      assert TaskOk(s, a, x);
    }
  }

  lemma WakeOk(s: State, a: Abs, q: nat)
    requires Inv(s, a) && TailsOk(s) && Enabled(s, Wake(q))
    ensures Inv(After(s, Wake(q)), a)
  {
    hide Queues, Callers, Slots, Path, NoDup, AllAt, Held, PlaceOk;
    assert WorkerOk(s, a, q);
    RunBits(s, a);
    WorkerStepOk(s, a, After(s, Wake(q)), a, q);
  }

  lemma LockOk(s: State, a: Abs, q: nat)
    requires Inv(s, a) && TailsOk(s) && Enabled(s, Lock(q))
    ensures Inv(After(s, Lock(q)), if s.run[s.pc[q].t] then a else a.(holder := a.holder[s.pc[q].t := Some(q)]))
  {
    hide Callers, Slots, Path, NoDup, AllAt, Held, PlaceOk;
    var t := s.pc[q].t;
    assert QueueOk(s, a, q) && WorkerOk(s, a, q) && TaskOk(s, a, t);
    RunBits(s, a);
    hide Queues, Workers;
    WorkerStepOk(s, a, After(s, Lock(q)), if s.run[t] then a else a.(holder := a.holder[t := Some(q)]), q);
  }

  lemma ReadCountOk(s: State, a: Abs, q: nat)
    requires Inv(s, a) && TailsOk(s) && Enabled(s, ReadCount(q))
    ensures Inv(After(s, ReadCount(q)), a)
  {
    hide Callers, Slots, Path, NoDup, AllAt, Held, PlaceOk;
    assert QueueOk(s, a, q) && WorkerOk(s, a, q);
    RunBits(s, a);
    hide Queues, Workers;
    WorkerStepOk(s, a, After(s, ReadCount(q)), a, q);
  }

  /** Clearing RUN, after the function or after finding the tasklet disabled. */
  lemma UnlockOk(s: State, a: Abs, q: nat, act: Action)
    requires act == Finish(q) || act == Release(q)
    requires Inv(s, a) && TailsOk(s) && Enabled(s, act)
    ensures Inv(After(s, act), a.(holder := a.holder[s.pc[q].t := None]))
  {
    hide Callers, Slots, Path, NoDup, AllAt, Held, PlaceOk;
    assert QueueOk(s, a, q) && WorkerOk(s, a, q);
    RunBits(s, a);
    hide Queues, Workers;
    WorkerStepOk(s, a, After(s, act), a.(holder := a.holder[s.pc[q].t := None]), q);
  }

  lemma PickNoneOk(s: State, a: Abs, q: nat)
    requires Inv(s, a) && TailsOk(s) && Enabled(s, Pick(q)) && s.list[q] == None
    ensures Inv(After(s, Pick(q)), a)
  {
    hide Callers, Slots, NoDup, AllAt, Held, PlaceOk;
    assert QueueOk(s, a, q) && WorkerOk(s, a, q);
    RunBits(s, a);
    hide Queues, Workers;
    WorkerStepOk(s, a, After(s, Pick(q)), a, q);
  }

  // ----- steps that hand a tasklet over

  ghost function Picked(a: Abs, q: nat): Abs
    requires q < |a.rest| && a.rest[q] != [] && a.rest[q][0] < |a.place|
  {
    a.(place := a.place[a.rest[q][0] := InHand(q)], rest := a.rest[q := a.rest[q][1..]])
  }

  lemma ListHead(s: State, a: Abs, q: nat)
    requires Sized(s, a) && q < |s.head| && WorkerOk(s, a, q) && s.list[q].Some?
    ensures a.rest[q] != [] && s.list[q].value == a.rest[q][0] < |s.next| && a.place[a.rest[q][0]] == Listed(q)
    ensures Path(s.next, s.next[s.list[q].value], a.rest[q][1..]) && NoDup(a.rest[q][1..])
    ensures forall p | 0 <= p < |a.rest[q][1..]| :: a.rest[q][1..][p] != a.rest[q][0]
  {
    PathRest(s.next, a.rest[q]);
  }

  lemma PickSomeOk(s: State, a: Abs, q: nat)
    requires Inv(s, a) && TailsOk(s) && Enabled(s, Pick(q)) && s.list[q].Some?
    ensures a.rest[q] != [] && a.rest[q][0] < |a.place| && Inv(After(s, Pick(q)), Picked(a, q))
  {
    hide Held, Path, NoDup;
    assert WorkerOk(s, a, q);
    ListHead(s, a, q);
    var t, c := s.list[q].value, a.rest[q];
    var s', a' := After(s, Pick(q)), Picked(a, q);
    forall r | 0 <= r < |s.head| ensures QueueOk(s', a', r) && WorkerOk(s', a', r) {
      assert QueueOk(s, a, r) && WorkerOk(s, a, r);
      hide AllAt;
      QueueFrame(s, a, s', a', r);
      if r != q {
        WorkerFrame(s, a, s', a', r);
      } else {
        PickPlaces(a, q);
      }
    }
    hide AllAt;
    forall x | 0 <= x < |s.next| ensures TaskOk(s', a', x) {
      assert TaskOk(s, a, x);
      assert x in c ==> x == t || x in c[1..];
    }
    forall r | 0 <= r < |s.callers| ensures CallerOk(s', a', r) {
      assert CallerOk(s, a, r);
    }
    forall d | 0 <= d < |s.slots| ensures SlotOk(s', a', d) {
      assert SlotOk(s, a, d);
    }
  }

  lemma PickPlaces(a: Abs, q: nat)
    requires q < |a.rest| && a.rest[q] != [] && AllAt(a.place, a.rest[q], Listed(q))
    requires forall p | 0 <= p < |a.rest[q][1..]| :: a.rest[q][1..][p] != a.rest[q][0]
    ensures a.rest[q][0] < |a.place| && AllAt(Picked(a, q).place, a.rest[q][1..], Listed(q))
  {
    assert forall p | 0 <= p < |a.rest[q][1..]| :: a.rest[q][1..][p] == a.rest[q][p + 1];
  }

  /** The test-and-clear finds SCHED set: the function starts, and BUG is not reached. */
  lemma StartOk(s: State, a: Abs, q: nat)
    requires Inv(s, a) && TailsOk(s) && Enabled(s, Start(q))
    ensures s.sched[s.pc[q].t] && Inv(After(s, Start(q)), a.(place := a.place[s.pc[q].t := Idle]))
  {
    hide Path, NoDup, AllAt, Held;
    var t := s.pc[q].t;
    var s', a' := After(s, Start(q)), a.(place := a.place[t := Idle]);
    assert WorkerOk(s, a, q) && TaskOk(s, a, t);
    forall r | 0 <= r < |s.head| ensures QueueOk(s', a', r) && WorkerOk(s', a', r) {
      assert QueueOk(s, a, r) && WorkerOk(s, a, r);
      QueueFrame(s, a, s', a', r);
      if r != q {
        WorkerFrame(s, a, s', a', r);
      } else {
        WorkerListFrame(s, a, s', a', q);
      }
    }
    forall x | 0 <= x < |s.next| ensures TaskOk(s', a', x) {
      assert TaskOk(s, a, x);
    }
    forall r | 0 <= r < |s.callers| ensures CallerOk(s', a', r) {
      assert CallerOk(s, a, r);
    }
    forall d | 0 <= d < |s.slots| ensures SlotOk(s', a', d) {
      assert SlotOk(s, a, d);
    }
  }

  /** The detached list of a worker whose own step keeps it. */
  lemma WorkerListFrame(s: State, a: Abs, s': State, a': Abs, q: nat)
    requires Sized(s, a) && Sized(s', a') && |s'.next| == |s.next| && q < |s.head| == |s'.head| && WorkerOk(s, a, q)
    requires s'.list[q] == s.list[q] && a'.rest[q] == a.rest[q] && KeptAt(s, a, s', a', Listed(q))
    ensures Path(s'.next, s'.list[q], a'.rest[q]) && NoDup(a'.rest[q]) && AllAt(a'.place, a'.rest[q], Listed(q))
  {
  }

  ghost function Taken(a: Abs, q: nat): Abs
    requires q < |a.contents| == |a.rest|
  {
    a.(place := Restamp(a.place, a.contents[q], Listed(q)), rest := a.rest[q := a.contents[q]],
       contents := a.contents[q := []])
  }

  lemma TakeTask(s: State, a: Abs, q: nat, x: nat)
    requires Inv(s, a) && TailsOk(s) && Enabled(s, Take(q)) && x < |s.next|
    ensures TaskOk(After(s, Take(q)), Taken(a, q), x)
  {
    hide Held, Callers, Slots, Path, NoDup;
    assert TaskOk(s, a, x) && QueueOk(s, a, q) && WorkerOk(s, a, q);
    hide Queues, Workers, Tasks;
    var a' := Taken(a, q);
    assert x in a.contents[q] ==> a.place[x] == Queued(q);
    assert a.rest[q] == [];
  }

  lemma TakeLists(s: State, a: Abs, q: nat, r: nat)
    requires Inv(s, a) && TailsOk(s) && Enabled(s, Take(q)) && r < |s.head|
    ensures QueueOk(After(s, Take(q)), Taken(a, q), r) && WorkerOk(After(s, Take(q)), Taken(a, q), r)
  {
    hide Held, Callers, Slots, Tasks, NoDup, Path, Queues, Workers;
    QueueAt(s, a, q);
    QueueAt(s, a, r);
    WorkerAt(s, a, q);
    WorkerAt(s, a, r);
    var s', a' := After(s, Take(q)), Taken(a, q);
    if r == q {
      PathNone(s.next);
    } else {
      assert forall x | 0 <= x < |s.next| && x in a.contents[q] :: a.place[x] == Queued(q);
      hide AllAt;
      QueueFrame(s, a, s', a', r);
      WorkerFrame(s, a, s', a', r);
    }
  }

  lemma TakeOk(s: State, a: Abs, q: nat)
    requires Inv(s, a) && TailsOk(s) && Enabled(s, Take(q))
    ensures Inv(After(s, Take(q)), Taken(a, q))
  {
    hide Held, Path, NoDup, QueueOk, WorkerOk, TaskOk;
    var s', a' := After(s, Take(q)), Taken(a, q);
    forall r | 0 <= r < |s.head| ensures QueueOk(s', a', r) && WorkerOk(s', a', r) {
      TakeLists(s, a, q, r);
    }
    forall x | 0 <= x < |s.next| ensures TaskOk(s', a', x) {
      TakeTask(s, a, q, x);
    }
    forall r | 0 <= r < |s.callers| ensures CallerOk(s', a', r) {
      assert CallerOk(s, a, r);
      if s.callers[r].Some? {
        TakeCaller(s, a, q, r);
      }
    }
    forall d | 0 <= d < |s.slots| ensures SlotOk(s', a', d) {
      assert SlotOk(s, a, d);
    }
  }

  lemma TakeCaller(s: State, a: Abs, q: nat, p: nat)
    requires Inv(s, a) && q < |s.head| && p < |s.callers| && s.callers[p].Some? && s.callers[p].value.t < |s.next|
    ensures s.callers[p].value.t !in a.contents[q]
  {
    assert QueueOk(s, a, q) && CallerOk(s, a, p);
  }

  ghost function Appended(a: Abs, q: nat, t: nat): Abs
    requires q < |a.contents| && t < |a.place|
  {
    a.(place := a.place[t := Queued(q)], contents := a.contents[q := a.contents[q] + [t]])
  }

  /** The queue appended to, and the others: only the tasklet and the old tail's next field changed. */
  lemma AppendQueue(s: State, a: Abs, q: nat, t: nat, r: nat)
    requires Inv(s, a) && TailsOk(s) && q < |s.head| && t < |s.next| && r < |s.head| && !a.place[t].Queued?
    ensures QueueOk(Append(s, q, t), Appended(a, q, t), r)
  {
    hide Held, Callers, Slots, Workers, Tasks, Path, NoDup, Queues;
    QueueAt(s, a, q);
    QueueAt(s, a, r);
    if r == q {
      AppendOwn(s, a, q, t);
    } else {
      QueueFrame(s, a, Append(s, q, t), Appended(a, q, t), r);
    }
  }

  lemma QueueAt(s: State, a: Abs, q: nat)
    requires Sized(s, a) && Queues(s, a) && q < |s.head|
    ensures QueueOk(s, a, q)
  {
  }

  lemma WorkerAt(s: State, a: Abs, q: nat)
    requires Sized(s, a) && Workers(s, a) && q < |s.head|
    ensures WorkerOk(s, a, q)
  {
  }

  lemma AppendOwn(s: State, a: Abs, q: nat, t: nat)
    requires Sized(s, a) && TailsOk(s) && q < |s.head| && t < |s.next| && QueueOk(s, a, q) && !a.place[t].Queued?
    ensures QueueOk(Append(s, q, t), Appended(a, q, t), q)
  {
    hide Path, NoDup;
    var s', c := Append(s, q, t), a.contents[q];
    assert t !in c;
    LastApart(c);
    InRange(s.next, s.head[q], c);
    PathAppend(s.next, s'.next, s.head[q], c, t);
  }

  lemma InRange(next: seq<Option<nat>>, from: Option<nat>, c: seq<nat>)
    requires Path(next, from, c)
    ensures forall p | 0 <= p < |c| :: c[p] < |next|
  {
  }

  lemma LastApart(c: seq<nat>)
    requires NoDup(c)
    ensures forall p | 0 <= p < |c| - 1 :: c[p] != c[|c| - 1]
  {
  }

  /** No worker's list runs through a field that an append writes. */
  lemma AppendKeeps(s: State, a: Abs, q: nat, t: nat, at: Place)
    requires Inv(s, a) && TailsOk(s) && q < |s.head| && t < |s.next| && a.place[t] != at && !at.Queued?
    ensures KeptAt(s, a, Append(s, q, t), Appended(a, q, t), at)
  {
    hide Held, Callers, Slots, Workers, Tasks, PlaceOk, Path, NoDup;
    assert QueueOk(s, a, q);
    hide Queues;
  }

  lemma EnqueueOk(s: State, a: Abs, p: nat)
    requires Inv(s, a) && TailsOk(s) && Enabled(s, Enqueue(p))
    ensures Inv(After(s, Enqueue(p)), Appended(a, s.callers[p].value.queue, s.callers[p].value.t))
  {
    hide Held, Path, NoDup, AllAt;
    var t, q := s.callers[p].value.t, s.callers[p].value.queue;
    var m, s', a' := Append(s, q, t), After(s, Enqueue(p)), Appended(a, q, t);
    assert CallerOk(s, a, p);
    forall r | 0 <= r < |s.head| ensures QueueOk(s', a', r) && WorkerOk(s', a', r) {
      assert WorkerOk(s, a, r);
      AppendQueue(s, a, q, t, r);
      AppendKeeps(s, a, q, t, Listed(r));
      AppendKeeps(s, a, q, t, InHand(r));
      WorkerFrame(s, a, s', a', r);
    }
    forall x | 0 <= x < |s.next| ensures TaskOk(s', a', x) {
      assert TaskOk(s, a, x);
      assert t in a'.contents[q];
    }
    forall r | 0 <= r < |s.callers| ensures CallerOk(s', a', r) {
      assert CallerOk(s, a, r);
    }
    forall d | 0 <= d < |s.slots| ensures SlotOk(s', a', d) {
      assert SlotOk(s, a, d);
    }
  }

  lemma PutBackOk(s: State, a: Abs, q: nat)
    requires Inv(s, a) && TailsOk(s) && Enabled(s, PutBack(q))
    ensures Inv(After(s, PutBack(q)), Appended(a, q, s.pc[q].t))
  {
    hide Held, Path, NoDup, AllAt;
    var t := s.pc[q].t;
    var m, s', a' := Append(s, q, t), After(s, PutBack(q)), Appended(a, q, t);
    assert WorkerOk(s, a, q);
    forall r | 0 <= r < |s.head| ensures QueueOk(s', a', r) && WorkerOk(s', a', r) {
      assert WorkerOk(s, a, r);
      AppendQueue(s, a, q, t, r);
      AppendKeeps(s, a, q, t, Listed(r));
      if r != q {
        AppendKeeps(s, a, q, t, InHand(r));
        WorkerFrame(s, a, s', a', r);
      } else {
        WorkerListFrame(s, a, s', a', q);
      }
    }
    forall x | 0 <= x < |s.next| ensures TaskOk(s', a', x) {
      assert TaskOk(s, a, x);
      assert t in a'.contents[q];
    }
    forall r | 0 <= r < |s.callers| ensures CallerOk(s', a', r) {
      assert CallerOk(s, a, r);
    }
    forall d | 0 <= d < |s.slots| ensures SlotOk(s', a', d) {
      assert SlotOk(s, a, d);
    }
  }

  // ----- disabling

  lemma {:induction false} HeldUpdate(slots: seq<Slot>, d: nat, v: Slot, t: nat)
    requires d < |slots|
    ensures Held(slots[d := v], t) + Hold(slots[d], t) == Held(slots, t) + Hold(v, t)
  {
    var last := |slots| - 1;
    if d == last {
      assert slots[d := v][..last] == slots[..last];
    } else {
      assert slots[d := v][..last] == slots[..last][d := v];
      HeldUpdate(slots[..last], d, v, t);
    }
  }

  /** Steps of a disabling or enabling thread touch one slot and the count of its tasklet. */
  lemma SlotStepOk(s: State, a: Abs, s': State, d: nat, v: Slot)
    requires Inv(s, a) && d < |s.slots| && (!v.Free? ==> v.t < |s.next|)
    requires s' == s.(count := s'.count, slots := s.slots[d := v]) && |s'.count| == |s.count|
    requires forall x | 0 <= x < |s.count| :: s'.count[x] + Hold(s.slots[d], x) == s.count[x] + Hold(v, x)
    requires v.Off? ==> v.t < |s.run| && !s.run[v.t]
    ensures Inv(s', a)
  {
    hide Held, Path, NoDup, AllAt, PlaceOk;
    forall r | 0 <= r < |s.head| ensures QueueOk(s', a, r) && WorkerOk(s', a, r) {
      assert QueueOk(s, a, r) && WorkerOk(s, a, r);
    }
    forall x | 0 <= x < |s.next| ensures TaskOk(s', a, x) {
      assert TaskOk(s, a, x);
      HeldUpdate(s.slots, d, v, x);
      PlaceFrame(s, a, s', x);
    }
    forall r | 0 <= r < |s.callers| ensures CallerOk(s', a, r) {
      assert CallerOk(s, a, r);
    }
    forall r | 0 <= r < |s.slots| ensures SlotOk(s', a, r) {
      assert SlotOk(s, a, r);
      if r == d && v.Off? {
        forall q | 0 <= q < |s.pc| && Committed(s.pc[q]) ensures s.pc[q].t != v.t {
          assert WorkerOk(s, a, q) && TaskOk(s, a, s.pc[q].t);
        }
      }
    }
  }

  lemma PlaceFrame(s: State, a: Abs, s': State, x: nat)
    requires Sized(s, a) && Sized(s', a) && x < |s.next| && PlaceOk(s, a, x)
    requires s' == s.(count := s'.count, slots := s'.slots)
    ensures PlaceOk(s', a, x)
  {
  }

  // ----- every step, every run

  lemma TailsInRange(s: State, a: Abs)
    requires Sized(s, a) && Queues(s, a)
    ensures TailsOk(s)
  {
    forall q | 0 <= q < |s.tail| ensures s.tail[q].AtNext? ==> s.tail[q].tasklet < |s.next| {
      assert QueueOk(s, a, q);
    }
  }

  /** Every step of every thread keeps the invariant. */
  lemma StepKeeps(s: State, a: Abs, act: Action) returns (a': Abs)
    requires Inv(s, a) && Enabled(s, act)
    ensures TailsOk(s) && Inv(After(s, act), a')
  {
    TailsInRange(s, a);
    hide Queues, Workers, Callers, Slots, TailsOk;
    a' := a;
    match act
    case Request(t, q, p) =>
      if !s.sched[t] {
        RequestOk(s, a, t, q, p);
        a' := a.(place := a.place[t := Pending(p)]);
      }
    case Enqueue(p) =>
      EnqueueOk(s, a, p);
      a' := Appended(a, s.callers[p].value.queue, s.callers[p].value.t);
    case Wake(q) => WakeOk(s, a, q);
    case Take(q) =>
      TakeOk(s, a, q);
      a' := Taken(a, q);
    case Pick(q) =>
      if s.list[q].None? {
        PickNoneOk(s, a, q);
      } else {
        PickSomeOk(s, a, q);
        a' := Picked(a, q);
      }
    case Lock(q) =>
      LockOk(s, a, q);
      a' := if s.run[s.pc[q].t] then a else a.(holder := a.holder[s.pc[q].t := Some(q)]);
    case ReadCount(q) => ReadCountOk(s, a, q);
    case Start(q) =>
      StartOk(s, a, q);
      a' := a.(place := a.place[s.pc[q].t := Idle]);
    case Finish(q) =>
      UnlockOk(s, a, q, act);
      a' := a.(holder := a.holder[s.pc[q].t := None]);
    case Release(q) =>
      UnlockOk(s, a, q, act);
      a' := a.(holder := a.holder[s.pc[q].t := None]);
    case PutBack(q) =>
      PutBackOk(s, a, q);
      a' := Appended(a, q, s.pc[q].t);
    case Disable(t, d, sync) =>
      SlotStepOk(s, a, After(s, act), d, if sync then Waiting(t) else NoSync(t));
    case Observe(d) =>
      if !s.run[s.slots[d].t] {
        SlotStepOk(s, a, After(s, act), d, Off(s.slots[d].t));
      }
    case Enable(d) => SlotStepOk(s, a, After(s, act), d, Free);
  }

  ghost predicate Step(s: State, act: Action, s': State) {
    Shaped(s) && TailsOk(s) && Enabled(s, act) && s' == After(s, act)
  }

  /** Nothing scheduled, queued or running; tasklets may be declared disabled. */
  ghost predicate Init(s: State) {
    && Shaped(s) && !s.bug
    && (forall t | 0 <= t < |s.next| :: !s.sched[t] && !s.run[t] && s.count[t] == Held(s.slots, t))
    && (forall q | 0 <= q < |s.head| ::
         s.head[q] == None && s.tail[q] == AtHead && s.pc[q] == Rest && s.list[q] == None)
    && (forall p | 0 <= p < |s.callers| :: s.callers[p] == None)
    && (forall d | 0 <= d < |s.slots| :: s.slots[d].Free? || (s.slots[d].NoSync? && s.slots[d].t < |s.next|))
  }

  /** However many tasklets, queues and threads there are, this is where they start. */
  ghost function Initial(tasklets: nat, queues: nat, callers: nat, slots: nat): (s: State)
    ensures Init(s) && |s.next| == tasklets && |s.head| == queues && |s.callers| == callers && |s.slots| == slots
  {
    var s := State(seq(tasklets, i => None), seq(tasklets, i => false), seq(tasklets, i => false),
                   seq(tasklets, i => 0),
                   seq(queues, i => None), seq(queues, i => AtHead), seq(queues, i => false), seq(queues, i => Rest),
                   seq(queues, i => None), seq(callers, i => None), seq(slots, i => Free), false);
    NoneHeld(s.slots);
    s
  }

  lemma {:induction false} NoneHeld(slots: seq<Slot>)
    requires forall d | 0 <= d < |slots| :: slots[d].Free?
    ensures forall t :: Held(slots, t) == 0
  {
    if slots != [] {
      NoneHeld(slots[..|slots| - 1]);
    }
  }

  ghost predicate Run(states: seq<State>, acts: seq<Action>) {
    && |states| == |acts| + 1 && Init(states[0])
    && forall i | 0 <= i < |acts| :: Step(states[i], acts[i], states[i + 1])
  }

  lemma InitOk(s: State) returns (a: Abs)
    requires Init(s)
    ensures Inv(s, a)
  {
    hide Held;
    a := Abs(seq(|s.next|, i => Idle), seq(|s.head|, i => []), seq(|s.head|, i => []), seq(|s.next|, i => None));
  }

  lemma {:induction false} RunKeeps(states: seq<State>, acts: seq<Action>, i: nat) returns (a: Abs)
    requires Run(states, acts) && i < |states|
    ensures Inv(states[i], a)
  {
    hide Inv, Init, After;
    if i == 0 {
      a := InitOk(states[0]);
    } else {
      var b := RunKeeps(states, acts, i - 1);
      assert Step(states[i - 1], acts[i - 1], states[i - 1 + 1]);
      a := StepKeeps(states[i - 1], b, acts[i - 1]);
    }
  }

  // ----- the promises, said of the source's own fields

  /** Tasklet `t` is on the chain that `from` starts. */
  ghost predicate OnChain(s: State, from: Option<nat>, t: nat) {
    exists c :: Path(s.next, from, c) && t in c
  }

  /** A thread is about to append `t`, or it is queued, or on a detached list, or in a worker's hand. */
  ghost predicate Somewhere(s: State, t: nat)
    requires Shaped(s)
  {
    || (exists p :: 0 <= p < |s.callers| && s.callers[p].Some? && s.callers[p].value.t == t)
    || (exists q :: 0 <= q < |s.head| && OnChain(s, s.head[q], t))
    || (exists q :: 0 <= q < |s.head| && (OnChain(s, s.list[q], t) || Hand(s.pc[q]) == Some(t)))
  }

  lemma OnChainIs(s: State, from: Option<nat>, c: seq<nat>, t: nat)
    requires Path(s.next, from, c)
    ensures OnChain(s, from, t) <==> t in c
  {
    if OnChain(s, from, t) {
      var d :| Path(s.next, from, d) && t in d;
      PathUnique(s.next, from, c, d, |c|);
    }
  }

  lemma QueuePlace(s: State, a: Abs, q: nat, t: nat)
    requires Inv(s, a) && q < |s.head| && t < |s.next|
    ensures OnChain(s, s.head[q], t) <==> a.place[t] == Queued(q)
    ensures OnChain(s, s.list[q], t) <==> a.place[t] == Listed(q)
    ensures Hand(s.pc[q]) == Some(t) <==> a.place[t] == InHand(q)
    ensures OnChain(s, s.head[q], t) ==> s.raised[q] || s.pc[q] == Woken
  {
    hide Held, Path, NoDup, OnChain, Callers, Slots;
    assert QueueOk(s, a, q) && WorkerOk(s, a, q) && TaskOk(s, a, t);
    OnChainIs(s, s.head[q], a.contents[q], t);
    OnChainIs(s, s.list[q], a.rest[q], t);
  }

  lemma CallerPlace(s: State, a: Abs, p: nat, t: nat)
    requires Inv(s, a) && p < |s.callers| && t < |s.next|
    ensures s.callers[p].Some? && s.callers[p].value.t == t <==> a.place[t] == Pending(p)
  {
    assert CallerOk(s, a, p) && TaskOk(s, a, t);
  }

  /** SCHED is set exactly while the tasklet is somewhere, and it is on at most one queue. */
  lemma SchedMeansSomewhere(states: seq<State>, acts: seq<Action>, i: nat, t: nat)
    requires Run(states, acts) && i < |states| && t < |states[i].next|
    ensures var s := states[i];
      && Shaped(s) && (s.sched[t] <==> Somewhere(s, t))
      && (forall q, r | 0 <= q < |s.head| && 0 <= r < |s.head| ::
            OnChain(s, s.head[q], t) && OnChain(s, s.head[r], t) ==> q == r)
      && (forall q | 0 <= q < |s.head| && OnChain(s, s.head[q], t) :: s.raised[q] || s.pc[q] == Woken)
  {
    hide Run, OnChain, Path, Held, Queues, Workers, Callers, Slots, Hand;
    var s := states[i];
    var a := RunKeeps(states, acts, i);
    assert TaskOk(s, a, t);
    forall q | 0 <= q < |s.head|
      ensures OnChain(s, s.head[q], t) <==> a.place[t] == Queued(q)
      ensures OnChain(s, s.list[q], t) <==> a.place[t] == Listed(q)
      ensures Hand(s.pc[q]) == Some(t) <==> a.place[t] == InHand(q)
      ensures OnChain(s, s.head[q], t) ==> s.raised[q] || s.pc[q] == Woken
    {
      QueuePlace(s, a, q, t);
    }
    forall p | 0 <= p < |s.callers|
      ensures s.callers[p].Some? && s.callers[p].value.t == t <==> a.place[t] == Pending(p)
    {
      CallerPlace(s, a, p, t);
    }
  }

  /** The function never overlaps itself, never runs while a returned disable stands, and BUG is not reached. */
  lemma NeverOverlaps(states: seq<State>, acts: seq<Action>, i: nat)
    requires Run(states, acts) && i < |states|
    ensures var s := states[i];
      && !s.bug
      && (forall q, r | 0 <= q < |s.pc| && 0 <= r < |s.pc| && s.pc[q].Running? && s.pc[r] == s.pc[q] :: q == r)
      && (forall q, d | 0 <= q < |s.pc| && 0 <= d < |s.slots| && s.pc[q].Running? :: s.slots[d] != Off(s.pc[q].t))
  {
    hide Run, Held, Path, NoDup, AllAt, PlaceOk;
    var s := states[i];
    var a := RunKeeps(states, acts, i);
    forall q | 0 <= q < |s.pc| && s.pc[q].Running? ensures s.pc[q].t < |s.next| && a.holder[s.pc[q].t] == Some(q) {
      assert WorkerOk(s, a, q);
    }
    forall q, d | 0 <= q < |s.pc| && 0 <= d < |s.slots| && s.pc[q].Running? ensures s.slots[d] != Off(s.pc[q].t) {
      assert SlotOk(s, a, d);
    }
  }

  // ----- what a disable promises

  /** No worker runs the tasklet or is about to. */
  ghost predicate Quiet(s: State, t: nat) {
    forall q | 0 <= q < |s.pc| && Committed(s.pc[q]) :: s.pc[q].t != t
  }

  /** Only its own steps change a slot. */
  lemma SlotStep(s: State, act: Action, s': State, d: nat)
    requires Step(s, act, s') && d < |s.slots| && !s.slots[d].Free? && act != Enable(d)
    ensures d < |s'.slots|
    ensures s'.slots[d] != s.slots[d] ==> s.slots[d].Waiting? && act == Observe(d) && s'.slots[d] == Off(s.slots[d].t)
    ensures act == Observe(d) && s.slots[d].t < |s.run| ==> (s'.slots[d].Waiting? <==> s.run[s.slots[d].t])
  {
    hide Append;
    if act.Enqueue? {
      AppendSlots(s, s.callers[act.caller].value.queue, s.callers[act.caller].value.t);
    } else if act.PutBack? {
      AppendSlots(s, act.q, s.pc[act.q].t);
    }
  }

  lemma AppendSlots(s: State, q: nat, t: nat)
    requires Shaped(s) && q < |s.head| && t < |s.next| && (s.tail[q].AtNext? ==> s.tail[q].tasklet < |s.next|)
    ensures Append(s, q, t).slots == s.slots && Append(s, q, t).callers == s.callers && Append(s, q, t).pc == s.pc
  {
  }

  /** No `Enable` undoes the disable of step `i` before state `j`. */
  ghost predicate Stands(acts: seq<Action>, i: nat, j: nat) {
    i < j <= |acts| && acts[i].Disable? && forall k | i < k < j :: acts[k] != Enable(acts[i].slot)
  }

  lemma DisableStep(s: State, act: Action, s': State)
    requires Step(s, act, s') && act.Disable?
    ensures act.slot < |s'.slots| && s'.slots[act.slot] == if act.sync then Waiting(act.t) else NoSync(act.t)
    ensures act.t < |s.count| == |s'.count| && s'.count[act.t] == s.count[act.t] + 1
  {
  }

  /** While it stands, its slot is the tasklet's. */
  lemma {:induction false} SlotStands(states: seq<State>, acts: seq<Action>, i: nat, j: nat)
    requires Run(states, acts) && Stands(acts, i, j)
    ensures acts[i].slot < |states[j].slots|
    ensures states[j].slots[acts[i].slot] in
      if acts[i].sync then {Waiting(acts[i].t), Off(acts[i].t)} else {NoSync(acts[i].t)}
    decreases j
  {
    hide Init, After;
    assert Step(states[j - 1], acts[j - 1], states[j - 1 + 1]);
    if j == i + 1 {
      DisableStep(states[i], acts[i], states[j]);
    } else {
      SlotStands(states, acts, i, j - 1);
      SlotStep(states[j - 1], acts[j - 1], states[j], acts[i].slot);
    }
  }

  lemma OffIsQuiet(s: State, a: Abs, d: nat)
    requires Inv(s, a) && d < |s.slots| && s.slots[d].Off?
    ensures Quiet(s, s.slots[d].t)
  {
    assert SlotOk(s, a, d);
  }

  /**
   A disable that waits returns only once it saw RUN clear, at step `m`, and from then until it is undone no
   worker runs the tasklet; before that it cannot be undone, and it has found RUN set whenever it looked.
   */
  lemma {:induction false} DisableWaits(states: seq<State>, acts: seq<Action>, i: nat, j: nat) returns (m: nat)
    requires Run(states, acts) && Stands(acts, i, j) && acts[i].sync
    ensures acts[i].slot < |states[j].slots| && acts[i].t < |states[j].run| == |states[j].next|
    ensures if states[j].slots[acts[i].slot] == Waiting(acts[i].t) then
              && m == j && Shaped(states[j]) && !Enabled(states[j], Enable(acts[i].slot))
              && forall k | i < k < j && acts[k] == Observe(acts[i].slot) :: SeesRun(states[k], acts[i].t)
            else
              && i < m < j && acts[m] == Observe(acts[i].slot) && !SeesRun(states[m], acts[i].t)
              && forall k | m < k <= j :: Quiet(states[k], acts[i].t)
    decreases j
  {
    hide Init, After, Inv, Quiet;
    var t, d := acts[i].t, acts[i].slot;
    SlotStands(states, acts, i, j);
    var a := RunKeeps(states, acts, j);
    SlotInRange(states[j], a, d);
    m := j;
    assert Step(states[j - 1], acts[j - 1], states[j - 1 + 1]);
    if j == i + 1 {
      DisableStep(states[i], acts[i], states[j]);
    } else {
      SlotStands(states, acts, i, j - 1);
      m := DisableWaits(states, acts, i, j - 1);
      SlotStep(states[j - 1], acts[j - 1], states[j], d);
      if states[j].slots[d] == Waiting(t) {
        m := j;
      } else {
        OffIsQuiet(states[j], a, d);
      }
    }
  }

  ghost predicate SeesRun(s: State, t: nat) {
    t < |s.run| && s.run[t]
  }

  lemma SlotInRange(s: State, a: Abs, d: nat)
    requires Inv(s, a) && d < |s.slots|
    ensures Shaped(s) && (!s.slots[d].Free? ==> s.slots[d].t < |s.next|)
  {
    assert SlotOk(s, a, d);
  }

  /** So whoever enables after a disable that waited finds that nobody has run the tasklet since it returned. */
  lemma EnableAfterWait(states: seq<State>, acts: seq<Action>, i: nat, j: nat) returns (m: nat)
    requires Run(states, acts) && Stands(acts, i, j) && acts[i].sync && j < |acts| && acts[j] == Enable(acts[i].slot)
    ensures i < m < j && acts[m] == Observe(acts[i].slot) && !SeesRun(states[m], acts[i].t)
    ensures forall k | m < k <= j :: Quiet(states[k], acts[i].t)
  {
    hide Init, After, Quiet, Enabled;
    assert Step(states[j], acts[j], states[j + 1]);
    m := DisableWaits(states, acts, i, j);
  }

  /** While any disable stands, waiting or not, no worker newly gets past the disable test. */
  lemma DisabledIsNotStarted(states: seq<State>, acts: seq<Action>, i: nat, j: nat, q: nat)
    requires Run(states, acts) && Stands(acts, i, j) && j < |acts| && q < |states[j + 1].pc|
    requires Committed(states[j + 1].pc[q]) && states[j + 1].pc[q].t == acts[i].t
    ensures q < |states[j].pc| && Committed(states[j].pc[q]) && states[j].pc[q].t == acts[i].t
  {
    hide Init, Inv;
    assert Step(states[j], acts[j], states[j + 1]);
    SlotStands(states, acts, i, j);
    var a := RunKeeps(states, acts, j);
    DisabledCount(states[j], a, acts[i].slot);
    CommitStep(states[j], acts[j], states[j + 1], q);
  }

  lemma DisabledCount(s: State, a: Abs, d: nat)
    requires Inv(s, a) && d < |s.slots| && !s.slots[d].Free?
    ensures s.slots[d].t < |s.next| == |s.count| && s.count[s.slots[d].t] > 0
  {
    hide Held, Path, NoDup, AllAt;
    assert SlotOk(s, a, d);
    HeldAt(s.slots, d);
    assert TaskOk(s, a, s.slots[d].t);
  }

  lemma CommitStep(s: State, act: Action, s': State, q: nat)
    requires Step(s, act, s') && q < |s'.pc| && Committed(s'.pc[q]) && s'.pc[q].t < |s.count|
    requires s.count[s'.pc[q].t] > 0
    ensures q < |s.pc| && Committed(s.pc[q]) && s.pc[q].t == s'.pc[q].t
  {
    hide Append;
    if act.Enqueue? {
      AppendSlots(s, s.callers[act.caller].value.queue, s.callers[act.caller].value.t);
    } else if act.PutBack? {
      AppendSlots(s, act.q, s.pc[act.q].t);
    }
  }

  // ----- which queue a tasklet joins

  /** Tasklet `t` went to the end of queue `q`, whose softirq is raised; no other queue changed. */
  ghost predicate Joins(s: State, s': State, q: nat, t: nat) {
    && q < |s.head| == |s'.head| && |s'.raised| == |s'.head| && s'.raised[q]
    && (forall c | Path(s.next, s.head[q], c) :: Path(s'.next, s'.head[q], c + [t]))
    && forall r, c | 0 <= r < |s.head| && r != q && Path(s.next, s.head[r], c) :: Path(s'.next, s'.head[r], c)
  }

  lemma AppendedJoins(s: State, a: Abs, s': State, q: nat, t: nat)
    requires Inv(s, a) && q < |s.head| == |s'.head| && t < |s.next| && Inv(s', Appended(a, q, t))
    requires |s'.raised| == |s'.head| && s'.raised[q]
    ensures Joins(s, s', q, t)
  {
    hide Path, NoDup, AllAt, Held, Workers, Callers, Slots, Tasks;
    var a' := Appended(a, q, t);
    forall c | Path(s.next, s.head[q], c) ensures Path(s'.next, s'.head[q], c + [t]) {
      assert QueueOk(s, a, q) && QueueOk(s', a', q);
      PathUnique(s.next, s.head[q], c, a.contents[q], |c|);
    }
    forall r, c | 0 <= r < |s.head| && r != q && Path(s.next, s.head[r], c) ensures Path(s'.next, s'.head[r], c) {
      assert QueueOk(s, a, r) && QueueOk(s', a', r);
      PathUnique(s.next, s.head[r], c, a.contents[r], |c|);
    }
  }

  lemma {:induction false} CallerKept(states: seq<State>, acts: seq<Action>, i: nat, j: nat)
    requires Run(states, acts) && i < j < |states| && acts[i].Request? && acts[i].t < |states[i].sched|
    requires !states[i].sched[acts[i].t]
    requires forall k | i < k < j :: acts[k] != Enqueue(acts[i].caller)
    ensures acts[i].caller < |states[j].callers|
    ensures states[j].callers[acts[i].caller] == Some(Caller(acts[i].t, acts[i].queue))
    decreases j
  {
    hide Init, Append;
    assert Step(states[j - 1], acts[j - 1], states[j - 1 + 1]);
    if j > i + 1 {
      CallerKept(states, acts, i, j - 1);
      var s, act := states[j - 1], acts[j - 1];
      if act.PutBack? {
        AppendSlots(s, act.q, s.pc[act.q].t);
      }
    }
  }

  /** A tasklet joins the queue it was requested for, at its end. */
  lemma JoinsItsQueue(states: seq<State>, acts: seq<Action>, i: nat, j: nat)
    requires Run(states, acts) && i < j < |acts| && acts[i].Request? && acts[i].t < |states[i].sched|
    requires !states[i].sched[acts[i].t] && acts[j] == Enqueue(acts[i].caller)
    requires forall k | i < k < j :: acts[k] != Enqueue(acts[i].caller)
    ensures Joins(states[j], states[j + 1], acts[i].queue, acts[i].t)
  {
    hide Init, Inv, Append, Joins;
    assert Step(states[j], acts[j], states[j + 1]);
    CallerKept(states, acts, i, j);
    var a := RunKeeps(states, acts, j);
    EnqueueOk(states[j], a, acts[j].caller);
    AppendRaises(states[j], acts[i].queue, acts[i].t);
    SizedIs(states[j], a);
    AppendedJoins(states[j], a, states[j + 1], acts[i].queue, acts[i].t);
  }

  lemma AppendRaises(s: State, q: nat, t: nat)
    requires Shaped(s) && q < |s.head| && t < |s.next| && (s.tail[q].AtNext? ==> s.tail[q].tasklet < |s.next|)
    ensures var s' := Append(s, q, t); q < |s.head| == |s'.head| == |s'.raised| && s'.raised[q]
  {
  }

  lemma SizedIs(s: State, a: Abs)
    requires Inv(s, a)
    ensures Sized(s, a)
  {
  }

  /** One that could not be run goes back to the queue of the worker that had it. */
  lemma PutBackJoins(states: seq<State>, acts: seq<Action>, i: nat)
    requires Run(states, acts) && i < |acts| && acts[i].PutBack?
    ensures acts[i].q < |states[i].pc| && states[i].pc[acts[i].q].Requeue?
    ensures Joins(states[i], states[i + 1], acts[i].q, states[i].pc[acts[i].q].t)
  {
    hide Init, Inv, Append, Joins;
    assert Step(states[i], acts[i], states[i + 1]);
    var s, q := states[i], acts[i].q;
    var a := RunKeeps(states, acts, i);
    PutBackOk(s, a, q);
    AppendRaises(s, q, s.pc[q].t);
    SizedIs(s, a);
    AppendedJoins(s, a, states[i + 1], q, s.pc[q].t);
  }

  ghost predicate Starts(s: State, act: Action, t: nat) {
    act.Start? && act.q < |s.pc| && s.pc[act.q].Clearing? && s.pc[act.q].t == t
  }

  lemma SchedStays(s: State, act: Action, s': State, t: nat)
    requires Step(s, act, s') && t < |s.next|
    requires (s.sched[t] && !Starts(s, act, t)) || (act.Request? && act.t == t)
    ensures t < |s'.next| && Shaped(s') && s'.sched[t]
  {
    hide Append;
    if act.Enqueue? {
      AppendSame(s, s.callers[act.caller].value.queue, s.callers[act.caller].value.t);
    } else if act.PutBack? {
      AppendSame(s, act.q, s.pc[act.q].t);
    }
  }

  lemma AppendSame(s: State, q: nat, t: nat)
    requires Shaped(s) && q < |s.head| && t < |s.next| && (s.tail[q].AtNext? ==> s.tail[q].tasklet < |s.next|)
    ensures Shaped(Append(s, q, t)) && Append(s, q, t).sched == s.sched
    ensures |Append(s, q, t).next| == |s.next| && |Append(s, q, t).head| == |s.head|
  {
  }

  /** A schedule request is never lost: until the function starts, the tasklet stays scheduled. */
  lemma {:induction false} RequestNotLost(states: seq<State>, acts: seq<Action>, i: nat, j: nat)
    requires Run(states, acts) && i < j < |states| && acts[i].Request?
    requires forall k | i < k < j :: !Starts(states[k], acts[k], acts[i].t)
    ensures acts[i].t < |states[j].next| && Shaped(states[j]) && states[j].sched[acts[i].t]
    ensures Somewhere(states[j], acts[i].t)
    decreases j - i
  {
    hide Somewhere, TailsOk, After, Init;
    var t := acts[i].t;
    assert Step(states[j - 1], acts[j - 1], states[j - 1 + 1]);
    if j > i + 1 {
      RequestNotLost(states, acts, i, j - 1);
    }
    SchedStays(states[j - 1], acts[j - 1], states[j], t);
    SchedMeansSomewhere(states, acts, j, t);
  }

  /** The function starts once per request that won: between two starts another request did. */
  lemma {:induction false} OncePerRequest(states: seq<State>, acts: seq<Action>, i: nat, j: nat, t: nat)
    returns (k: nat)
    requires Run(states, acts) && i < j < |acts| && Starts(states[i], acts[i], t) && Starts(states[j], acts[j], t)
    ensures i < k < j && acts[k].Request? && acts[k].t == t && t < |states[k].sched| && !states[k].sched[t]
  {
    hide Init, After;
    assert Step(states[j], acts[j], states[j + 1]) && Step(states[i], acts[i], states[i + 1]);
    var a := RunKeeps(states, acts, j);
    StartsScheduled(states[j], a, acts[j], t);
    StartClears(states[i], acts[i], states[i + 1], t);
    k := SchedSet(states, acts, i + 1, j, t);
  }

  lemma StartsScheduled(s: State, a: Abs, act: Action, t: nat)
    requires Inv(s, a) && Starts(s, act, t)
    ensures t < |s.sched| && s.sched[t]
  {
    hide Held, Path, NoDup, AllAt;
    assert WorkerOk(s, a, act.q);
    assert TaskOk(s, a, t);
  }

  lemma StartClears(s: State, act: Action, s': State, t: nat)
    requires Step(s, act, s') && Starts(s, act, t)
    ensures t < |s'.sched| && !s'.sched[t]
  {
  }

  lemma {:induction false} SchedSet(states: seq<State>, acts: seq<Action>, i: nat, j: nat, t: nat) returns (k: nat)
    requires Run(states, acts) && i <= j < |states| && t < |states[i].sched| && !states[i].sched[t]
    requires t < |states[j].sched| && states[j].sched[t]
    ensures i <= k < j && acts[k].Request? && acts[k].t == t && t < |states[k].sched| && !states[k].sched[t]
    decreases j
  {
    hide Init, After;
    assert Step(states[j - 1], acts[j - 1], states[j - 1 + 1]);
    SchedStep(states[j - 1], acts[j - 1], states[j], t);
    if states[j - 1].sched[t] {
      k := SchedSet(states, acts, i, j - 1, t);
    } else {
      k := j - 1;
    }
  }

  lemma SchedStep(s: State, act: Action, s': State, t: nat)
    requires Step(s, act, s') && t < |s'.sched| && s'.sched[t]
    ensures t < |s.sched| && (s.sched[t] || (act.Request? && act.t == t))
  {
    hide Append;
    if act.Enqueue? {
      AppendSame(s, s.callers[act.caller].value.queue, s.callers[act.caller].value.t);
    } else if act.PutBack? {
      AppendSame(s, act.q, s.pc[act.q].t);
    }
  }

  /** No thread is ever stuck on a stale index: wherever it stands, its next step can be taken. */
  lemma NeverStuck(s: State, a: Abs, q: nat, d: nat)
    requires Inv(s, a)
    ensures q < |s.head| ==> match s.pc[q]
      case Rest => s.raised[q] ==> Enabled(s, Wake(q))
      case Woken => Enabled(s, Take(q))
      case Loop => Enabled(s, Pick(q))
      case TryLock(_) => Enabled(s, Lock(q))
      case Locked(_) => Enabled(s, ReadCount(q))
      case Clearing(_) => Enabled(s, Start(q))
      case Running(_) => Enabled(s, Finish(q))
      case Refused(_) => Enabled(s, Release(q))
      case Requeue(_) => Enabled(s, PutBack(q))
    ensures d < |s.callers| && s.callers[d].Some? ==> Enabled(s, Enqueue(d))
    ensures d < |s.slots| && s.slots[d].Waiting? ==> Enabled(s, Observe(d))
    ensures d < |s.slots| && (s.slots[d].NoSync? || s.slots[d].Off?) ==> Enabled(s, Enable(d))
  {
    hide NoDup, Held, PlaceOk;
    assert q < |s.head| ==> WorkerOk(s, a, q);
    assert d < |s.callers| ==> CallerOk(s, a, d);
    assert d < |s.slots| ==> SlotOk(s, a, d);
    if d < |s.slots| && !s.slots[d].Free? {
      HeldAt(s.slots, d);
      assert TaskOk(s, a, s.slots[d].t);
    }
  }

  /**
   A queued tasklet is on its way: if it is neither disabled nor locked, the worker of its queue, at rest,
   starts it in six steps of its own.
   */
  lemma QueuedTaskletStarts(s: State, a: Abs, q: nat) returns (states: seq<State>)
    requires Inv(s, a) && q < |s.head| && s.pc[q] == Rest && a.contents[q] != [] && a.contents[q][0] < |s.next|
    requires !s.run[a.contents[q][0]] && s.count[a.contents[q][0]] == 0
    ensures |states| == 7 && states[0] == s
    ensures Step(states[0], Wake(q), states[1]) && Step(states[1], Take(q), states[2])
    ensures Step(states[2], Pick(q), states[3])
    ensures Step(states[3], Lock(q), states[4]) && Step(states[4], ReadCount(q), states[5])
    ensures Step(states[5], Start(q), states[6])
    ensures q < |states[6].pc| && states[6].pc[q] == Running(a.contents[q][0]) && !states[6].bug
  {
    hide Held, NoDup, AllAt, PlaceOk, Callers, Slots, Queues, Workers, Tasks, After, Path;
    var t := a.contents[q][0];
    QueuedIsScheduled(s, a, q, t);
    TailsInRange(s, a);
    QueueAt(s, a, q);
    PathAt(s.next, s.head[q], a.contents[q], 0);
    var s1, s2, s3 := DetachFirst(s, q, t);
    var s4, s5, s6 := StartPicked(s3, q, t);
    states := [s, s1, s2, s3, s4, s5, s6];
  }

  lemma DetachFirst(s: State, q: nat, t: nat) returns (s1: State, s2: State, s3: State)
    requires Shaped(s) && TailsOk(s) && q < |s.head| && s.pc[q] == Rest && s.raised[q] && s.head[q] == Some(t)
    requires t < |s.next|
    ensures Step(s, Wake(q), s1) && Step(s1, Take(q), s2) && Step(s2, Pick(q), s3)
    ensures Shaped(s3) && TailsOk(s3) && |s3.head| == |s.head| && |s3.next| == |s.next| && s3.pc[q] == TryLock(t)
    ensures s3.run == s.run && s3.count == s.count && s3.sched == s.sched && s3.bug == s.bug
  {
    s1 := s.(raised := s.raised[q := false], pc := s.pc[q := Woken]);
    s2 := s1.(list := s1.list[q := s1.head[q]], head := s1.head[q := None], tail := s1.tail[q := AtHead],
              pc := s1.pc[q := Loop]);
    s3 := s2.(pc := s2.pc[q := TryLock(t)], list := s2.list[q := s2.next[t]]);
  }

  lemma StartPicked(s: State, q: nat, t: nat) returns (s1: State, s2: State, s3: State)
    requires Shaped(s) && TailsOk(s) && q < |s.head| && t < |s.next| && s.pc[q] == TryLock(t)
    requires !s.run[t] && s.count[t] == 0 && s.sched[t] && !s.bug
    ensures Step(s, Lock(q), s1) && Step(s1, ReadCount(q), s2) && Step(s2, Start(q), s3)
    ensures q < |s3.pc| && s3.pc[q] == Running(t) && !s3.bug
  {
    s1 := s.(run := s.run[t := true], pc := s.pc[q := Locked(t)]);
    s2 := s1.(pc := s1.pc[q := Clearing(t)]);
    s3 := s2.(sched := s2.sched[t := false], pc := s2.pc[q := Running(t)]);
  }

  lemma QueuedIsScheduled(s: State, a: Abs, q: nat, t: nat)
    requires Inv(s, a) && q < |s.head| && t < |s.next| && t in a.contents[q]
    ensures s.sched[t]
  {
    hide Held, NoDup, Path;
    assert QueueOk(s, a, q) && TaskOk(s, a, t);
  }
}
