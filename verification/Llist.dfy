/**
 The lock-less list of libs/list/llist.c: any number of adders and one consumer, each action one atomic
 memory access of the source. Nodes that left the list may be added again at once, so the consumer's
 compare-and-exchange meets every recurrence of an address. Memory is sequentially consistent.
 */
module Llist {
  import opened Options
  import opened Chains

  /**
   An adder with its privately linked batch: before reading the head, before writing it into its last node,
   before the exchange.
   */
  datatype Adder =
    | Idle
    | Read(batch: seq<nat>)
    | Write(batch: seq<nat>, first: Option<nat>)
    | Cas(batch: seq<nat>, first: Option<nat>)

  /** The consumer in `llist_del_first`: before reading its entry's next field, before the exchange. */
  datatype Consumer = Resting | Have(entry: nat) | HaveNext(entry: nat, next: Option<nat>)

  datatype State = State(first: Option<nat>, next: seq<Option<nat>>, adders: seq<Adder>, consumer: Consumer)

  datatype Action =
    | Form(a: nat, batch: seq<nat>, links: seq<Option<nat>>)
    | AddRead(a: nat) | AddWrite(a: nat) | AddCas(a: nat)
    | DelLoad | DelNext | DelCas | DelAll

  /** What an action returns to its caller, if it ends an operation. */
  datatype Event =
    | Silent
    | Added(batch: seq<nat>, wasEmpty: bool)
    | Removed(node: Option<nat>)
    | RemovedAll(first: Option<nat>)

  // ----- who owns a node

  datatype Place = Outside | Private(a: nat) | Listed

  /** The stack the list stands for, and the place of every node. */
  datatype Abs = Abs(stack: seq<nat>, place: seq<Place>)

  ghost predicate AdderOk(s: State, ab: Abs, a: nat)
    requires a < |s.adders| && |ab.place| == |s.next|
  {
    var d := s.adders[a];
    !d.Idle? ==>
      && d.batch != [] && NoDup(d.batch) && AllAt(ab.place, d.batch, Private(a)) && Inner(s.next, d.batch)
      && (d.Cas? ==> s.next[d.batch[|d.batch| - 1]] == d.first)
  }

  ghost predicate NodeOk(s: State, ab: Abs, x: nat)
    requires x < |ab.place| == |s.next|
  {
    match ab.place[x]
    case Outside => true
    case Private(a) => a < |s.adders| && !s.adders[a].Idle? && x in s.adders[a].batch
    case Listed => x in ab.stack
  }

  /** The consumer's entry is in the list, and the next field it read is still there. */
  ghost predicate ConsumerOk(s: State, ab: Abs)
    requires |ab.place| == |s.next|
  {
    && (!s.consumer.Resting? ==> s.consumer.entry < |s.next| && ab.place[s.consumer.entry] == Listed)
    && (s.consumer.HaveNext? ==> s.next[s.consumer.entry] == s.consumer.next)
  }

  ghost predicate StackOk(s: State, ab: Abs) {
    Path(s.next, s.first, ab.stack) && NoDup(ab.stack) && AllAt(ab.place, ab.stack, Listed)
  }

  ghost predicate Adders(s: State, ab: Abs)
    requires |ab.place| == |s.next|
  {
    forall a | 0 <= a < |s.adders| :: AdderOk(s, ab, a)
  }

  ghost predicate Nodes(s: State, ab: Abs)
    requires |ab.place| == |s.next|
  {
    forall x | 0 <= x < |s.next| :: NodeOk(s, ab, x)
  }

  ghost predicate Inv(s: State, ab: Abs) {
    |ab.place| == |s.next| && StackOk(s, ab) && Adders(s, ab) && Nodes(s, ab) && ConsumerOk(s, ab)
  }

  // ----- the source's steps

  /** A thread may link a batch only out of nodes nobody else has. */
  ghost predicate Enabled(s: State, ab: Abs, act: Action)
    requires |ab.place| == |s.next|
  {
    match act
    case Form(a, b, links) =>
      && a < |s.adders| && s.adders[a] == Idle && b != [] && NoDup(b) && AllAt(ab.place, b, Outside)
      && |links| == |s.next|
      && Inner(links, b) && forall x | 0 <= x < |links| && x !in b :: links[x] == s.next[x]
    case AddRead(a) => a < |s.adders| && s.adders[a].Read?
    case AddWrite(a) => a < |s.adders| && s.adders[a].Write?
    case AddCas(a) => a < |s.adders| && s.adders[a].Cas?
    case DelLoad => s.consumer == Resting
    case DelNext => s.consumer.Have?
    case DelCas => s.consumer.HaveNext?
    case DelAll => s.consumer == Resting
  }

  /** The memory the step touches is there. */
  ghost predicate Can(s: State, act: Action) {
    match act
    case Form(a, _, _) => a < |s.adders|
    case AddRead(a) => a < |s.adders| && s.adders[a].Read?
    case AddWrite(a) =>
      && a < |s.adders| && s.adders[a].Write? && s.adders[a].batch != []
      && Last(s.adders[a].batch) < |s.next|
    case AddCas(a) => a < |s.adders| && s.adders[a].Cas? && s.adders[a].batch != []
    case DelNext => s.consumer.Have? && s.consumer.entry < |s.next|
    case DelCas => s.consumer.HaveNext?
    case _ => true
  }

  ghost function Last(b: seq<nat>): nat
    requires b != []
  {
    b[|b| - 1]
  }

  ghost function Entry(first: Option<nat>): Consumer {
    if first.Some? then Have(first.value) else Resting
  }

  ghost function After(s: State, act: Action): State
    requires Can(s, act)
  {
    match act
    case Form(a, b, links) => s.(next := links, adders := s.adders[a := Read(b)])
    case AddRead(a) => s.(adders := s.adders[a := Write(s.adders[a].batch, s.first)])
    case AddWrite(a) =>
      var d := s.adders[a];
      s.(next := s.next[Last(d.batch) := d.first], adders := s.adders[a := Cas(d.batch, d.first)])
    case AddCas(a) =>
      var d := s.adders[a];
      if s.first == d.first then s.(first := Some(d.batch[0]), adders := s.adders[a := Idle])
      else s.(adders := s.adders[a := Read(d.batch)])
    case DelLoad => s.(consumer := Entry(s.first))
    case DelNext => s.(consumer := HaveNext(s.consumer.entry, s.next[s.consumer.entry]))
    case DelCas =>
      if s.first == Some(s.consumer.entry) then s.(first := s.consumer.next, consumer := Resting)
      else s.(consumer := Entry(s.first))
    case DelAll => s.(first := None)
  }

  /** What the action returns. */
  ghost function Returns(s: State, act: Action): Event
    requires Can(s, act)
  {
    match act
    case AddCas(a) => if s.first == s.adders[a].first then Added(s.adders[a].batch, s.adders[a].first.None?) else Silent
    case DelLoad => if s.first.None? then Removed(None) else Silent
    case DelCas =>
      if s.first == Some(s.consumer.entry) then Removed(Some(s.consumer.entry))
      else if s.first.None? then Removed(None) else Silent
    case DelAll => RemovedAll(s.first)
    case _ => Silent
  }

  // ----- the stack it implements

  /** The effect of an event on a stack, whatever the list does: this is the whole specification. */
  ghost predicate StackStep(stack: seq<nat>, e: Event, stack': seq<nat>) {
    match e
    case Silent => stack' == stack
    case Added(b, wasEmpty) => stack' == b + stack && (wasEmpty <==> stack == [])
    case Removed(n) => n == First(stack) && stack' == if stack == [] then [] else stack[1..]
    case RemovedAll(f) => f == First(stack) && stack' == []
  }

  ghost function AbsAfter(s: State, ab: Abs, act: Action): Abs
    requires Can(s, act)
  {
    match act
    case Form(a, b, links) => ab.(place := Restamp(ab.place, b, Private(a)))
    case AddCas(a) =>
      if s.first != s.adders[a].first then ab
      else Abs(s.adders[a].batch + ab.stack, Restamp(ab.place, s.adders[a].batch, Listed))
    case DelCas =>
      if s.first != Some(s.consumer.entry) then ab
      else Abs(if ab.stack == [] then [] else ab.stack[1..], Restamp(ab.place, [s.consumer.entry], Outside))
    case DelAll => Abs([], Restamp(ab.place, ab.stack, Outside))
    case _ => ab
  }

  lemma Ready(s: State, ab: Abs, act: Action)
    requires Inv(s, ab) && Enabled(s, ab, act)
    ensures Can(s, act)
  {
    if act.AddWrite? || act.AddCas? {
      assert AdderOk(s, ab, act.a);
    }
  }

  // ----- each step

  lemma AdderFrame(s: State, ab: Abs, s': State, ab': Abs, a: nat)
    requires |ab.place| == |s.next| == |s'.next| == |ab'.place| && a < |s.adders| == |s'.adders| && AdderOk(s, ab, a)
    requires s'.adders[a] == s.adders[a]
    requires forall x | 0 <= x < |s.next| && ab.place[x] == Private(a) ::
      s'.next[x] == s.next[x] && ab'.place[x] == Private(a)
    ensures AdderOk(s', ab', a)
  {
  }

  lemma StackFrame(s: State, ab: Abs, s': State, ab': Abs)
    requires |ab.place| == |s.next| == |s'.next| == |ab'.place| && StackOk(s, ab) && s'.first == s.first
    requires ab'.stack == ab.stack
    requires forall x | 0 <= x < |s.next| && ab.place[x] == Listed :: s'.next[x] == s.next[x] && ab'.place[x] == Listed
    ensures StackOk(s', ab')
  {
  }

  lemma FormOk(s: State, ab: Abs, act: Action)
    requires Inv(s, ab) && Enabled(s, ab, act) && act.Form?
    ensures Inv(After(s, act), AbsAfter(s, ab, act))
  {
    hide Path;
    var s', ab' := After(s, act), AbsAfter(s, ab, act);
    assert forall x | 0 <= x < |s.next| && x in act.batch :: ab.place[x] == Outside;
    StackFrame(s, ab, s', ab');
    hide StackOk;
    forall r | 0 <= r < |s.adders| ensures AdderOk(s', ab', r) {
      assert AdderOk(s, ab, r);
      if r != act.a {
        AdderFrame(s, ab, s', ab', r);
      }
    }
    forall x | 0 <= x < |s.next| ensures NodeOk(s', ab', x) {
      assert NodeOk(s, ab, x);
    }
  }

  /** Steps of adder `a` that touch only its own fields. */
  lemma AdderStepOk(s: State, ab: Abs, act: Action)
    requires Inv(s, ab) && Enabled(s, ab, act)
    requires act.AddRead? || act.AddWrite? || (act.AddCas? && s.first != s.adders[act.a].first)
    ensures Can(s, act) && Inv(After(s, act), ab)
  {
    Ready(s, ab, act);
    hide Path;
    var s', a := After(s, act), act.a;
    assert AdderOk(s, ab, a);
    var b := s.adders[a].batch;
    StackFrame(s, ab, s', ab);
    hide StackOk;
    forall r | 0 <= r < |s.adders| ensures AdderOk(s', ab, r) {
      assert AdderOk(s, ab, r);
      if r != a {
        AdderFrame(s, ab, s', ab, r);
      } else {
        assert forall p | 0 <= p < |b| - 1 :: b[p] != b[|b| - 1];
      }
    }
    forall x | 0 <= x < |s.next| ensures NodeOk(s', ab, x) {
      assert NodeOk(s, ab, x);
    }
  }

  lemma AddCasOk(s: State, ab: Abs, act: Action)
    requires Inv(s, ab) && Enabled(s, ab, act) && act.AddCas? && s.first == s.adders[act.a].first
    ensures Can(s, act) && Inv(After(s, act), AbsAfter(s, ab, act))
  {
    hide StackOk, AdderOk, NodeOk, Adders, Nodes, Restamp;
    Ready(s, ab, act);
    var s', ab' := After(s, act), AbsAfter(s, ab, act);
    AddCasStack(s, ab, act);
    forall r | 0 <= r < |s.adders| ensures AdderOk(s', ab', r) {
      AddCasAdder(s, ab, act, r);
    }
    forall x | 0 <= x < |s.next| ensures NodeOk(s', ab', x) && (ab.place[x] == Listed ==> ab'.place[x] == Listed) {
      AddCasNode(s, ab, act, x);
    }
    AddersFrom(s', ab');
  }

  lemma AddersFrom(s: State, ab: Abs)
    requires |ab.place| == |s.next|
    requires forall r | 0 <= r < |s.adders| :: AdderOk(s, ab, r)
    requires forall x | 0 <= x < |s.next| :: NodeOk(s, ab, x)
    ensures Adders(s, ab) && Nodes(s, ab)
  {
    hide AdderOk, NodeOk;
  }

  lemma AddCasStack(s: State, ab: Abs, act: Action)
    requires Inv(s, ab) && act.AddCas? && Can(s, act) && s.first == s.adders[act.a].first
    ensures StackOk(After(s, act), AbsAfter(s, ab, act))
  {
    hide Inner, Restamp, Nodes, Path, NoDup, AllAt;
    assert AdderOk(s, ab, act.a);
    var b := s.adders[act.a].batch;
    assert Last(b) < |s.next| by {
      PrivateInRange(ab.place, b, act.a);
    }
    PathJoin(s.next, b, ab.stack, s.first);
    BatchApart(ab, b, act.a);
  }

  lemma PrivateInRange(place: seq<Place>, b: seq<nat>, a: nat)
    requires b != [] && AllAt(place, b, Private(a))
    ensures Last(b) < |place|
  {
  }

  lemma AddCasNode(s: State, ab: Abs, act: Action, x: nat)
    requires Inv(s, ab) && act.AddCas? && Can(s, act) && s.first == s.adders[act.a].first && x < |s.next|
    ensures NodeOk(After(s, act), AbsAfter(s, ab, act), x)
    ensures ab.place[x] == Listed ==> AbsAfter(s, ab, act).place[x] == Listed
  {
    hide Path, NoDup, Inner;
    assert AdderOk(s, ab, act.a) && NodeOk(s, ab, x);
    hide Adders, Nodes;
    assert x in s.adders[act.a].batch ==> ab.place[x] == Private(act.a);
  }

  lemma AddCasAdder(s: State, ab: Abs, act: Action, r: nat)
    requires Inv(s, ab) && act.AddCas? && Can(s, act) && s.first == s.adders[act.a].first && r < |s.adders|
    ensures AdderOk(After(s, act), AbsAfter(s, ab, act), r)
  {
    hide Path, NoDup, Inner;
    assert AdderOk(s, ab, act.a) && AdderOk(s, ab, r);
    hide Adders, Nodes, StackOk;
    assert forall x | 0 <= x < |s.next| && x in s.adders[act.a].batch :: ab.place[x] == Private(act.a);
    if r != act.a {
      AdderFrame(s, ab, After(s, act), AbsAfter(s, ab, act), r);
    }
  }

  lemma BatchApart(ab: Abs, b: seq<nat>, a: nat)
    requires NoDup(b) && NoDup(ab.stack) && AllAt(ab.place, b, Private(a)) && AllAt(ab.place, ab.stack, Listed)
    ensures NoDup(b + ab.stack) && AllAt(Restamp(ab.place, b, Listed), b + ab.stack, Listed)
  {
  }

  /** The exchange of `llist_del_first` succeeds only with the right next node, however stale its read. */
  lemma DelCasOk(s: State, ab: Abs)
    requires Inv(s, ab) && s.consumer.HaveNext? && s.first == Some(s.consumer.entry)
    ensures ab.stack != [] && ab.stack[0] == s.consumer.entry && s.consumer.next == Follower(ab.stack, 0)
    ensures Inv(After(s, DelCas), AbsAfter(s, ab, DelCas))
  {
    var s', ab', e := After(s, DelCas), AbsAfter(s, ab, DelCas), s.consumer.entry;
    PathRest(s.next, ab.stack);
    assert ab.stack[0] == e && s.next[e] == Follower(ab.stack, 0);
    PoppedApart(ab, e);
    hide Path, NoDup, AllAt, Inner;
    forall r | 0 <= r < |s.adders| ensures AdderOk(s', ab', r) {
      assert AdderOk(s, ab, r);
      AdderFrame(s, ab, s', ab', r);
    }
    forall x | 0 <= x < |s.next| ensures NodeOk(s', ab', x) {
      assert NodeOk(s, ab, x);
    }
  }

  /** That read is the whole of the single-consumer rule: the exchange is right exactly when it is still current. */
  lemma StaleNextBreaks(s: State, ab: Abs)
    requires StackOk(s, ab) && ab.stack != [] && s.consumer.HaveNext? && s.first == Some(s.consumer.entry)
    ensures Path(After(s, DelCas).next, After(s, DelCas).first, ab.stack[1..]) <==>
      s.next[s.consumer.entry] == s.consumer.next
  {
    assert s.next[ab.stack[0]] == Follower(ab.stack, 0);
    PathRest(s.next, ab.stack);
  }

  lemma PoppedApart(ab: Abs, e: nat)
    requires ab.stack != [] && ab.stack[0] == e && NoDup(ab.stack) && AllAt(ab.place, ab.stack, Listed)
    ensures e < |ab.place| && ab.place[e] == Listed
    ensures NoDup(ab.stack[1..]) && AllAt(Restamp(ab.place, [e], Outside), ab.stack[1..], Listed)
    ensures forall x | x in ab.stack :: x == e || x in ab.stack[1..]
  {
    assert forall p | 0 <= p < |ab.stack| - 1 :: ab.stack[1..][p] == ab.stack[p + 1] != e;
  }

  lemma DelAllOk(s: State, ab: Abs)
    requires Inv(s, ab) && s.consumer == Resting
    ensures Inv(After(s, DelAll), AbsAfter(s, ab, DelAll))
  {
    hide Path;
    var s', ab' := After(s, DelAll), AbsAfter(s, ab, DelAll);
    assert forall x | 0 <= x < |s.next| && x in ab.stack :: ab.place[x] == Listed;
    PathNone(s.next);
    forall r | 0 <= r < |s.adders| ensures AdderOk(s', ab', r) {
      assert AdderOk(s, ab, r);
      AdderFrame(s, ab, s', ab', r);
    }
    forall x | 0 <= x < |s.next| ensures NodeOk(s', ab', x) {
      assert NodeOk(s, ab, x);
    }
  }

  /** Steps that only move the consumer. */
  lemma ConsumerStepOk(s: State, ab: Abs, s': State)
    requires Inv(s, ab) && s' == s.(consumer := s'.consumer) && ConsumerOk(s', ab)
    ensures Inv(s', ab)
  {
    hide Path;
    forall r | 0 <= r < |s.adders| ensures AdderOk(s', ab, r) {
      assert AdderOk(s, ab, r);
    }
    forall x | 0 <= x < |s.next| ensures NodeOk(s', ab, x) {
      assert NodeOk(s, ab, x);
    }
  }

  // ----- every step, every run

  /** Each step does to the stack what the event it returns says, and keeps the list in order. */
  lemma StepRefines(s: State, ab: Abs, act: Action)
    requires Inv(s, ab) && Enabled(s, ab, act)
    ensures Can(s, act) && Inv(After(s, act), AbsAfter(s, ab, act))
    ensures StackStep(ab.stack, Returns(s, act), AbsAfter(s, ab, act).stack)
  {
    Ready(s, ab, act);
    hide Adders, Nodes, NoDup, AllAt, Restamp;
    match act
    case Form(a, b, links) => FormOk(s, ab, act);
    case AddRead(a) => AdderStepOk(s, ab, act);
    case AddWrite(a) => AdderStepOk(s, ab, act);
    case AddCas(a) =>
      if s.first == s.adders[a].first {
        AddCasOk(s, ab, act);
      } else {
        AdderStepOk(s, ab, act);
      }
    case DelLoad =>
      FirstListed(s, ab);
      ConsumerStepOk(s, ab, After(s, act));
    case DelNext => ConsumerStepOk(s, ab, After(s, act));
    case DelCas =>
      if s.first == Some(s.consumer.entry) {
        DelCasOk(s, ab);
      } else {
        FirstListed(s, ab);
        ConsumerStepOk(s, ab, After(s, act));
      }
    case DelAll => DelAllOk(s, ab);
  }

  lemma FirstListed(s: State, ab: Abs)
    requires Inv(s, ab)
    ensures s.first == First(ab.stack)
    ensures s.first.Some? ==> s.first.value < |s.next| && ab.place[s.first.value] == Listed
  {
  }

  ghost predicate Init(s: State, ab: Abs) {
    && s.first == None && s.consumer == Resting && (forall a | 0 <= a < |s.adders| :: s.adders[a] == Idle)
    && ab.stack == [] && |ab.place| == |s.next| && forall x | 0 <= x < |ab.place| :: ab.place[x] == Outside
  }

  /** However many nodes and adders there are, this is where they start. */
  ghost function Initial(nodes: nat, adders: nat): (r: (State, Abs))
    ensures Init(r.0, r.1) && |r.0.next| == nodes && |r.0.adders| == adders
  {
    (State(None, seq(nodes, i => None), seq(adders, i => Idle), Resting), Abs([], seq(nodes, i => Outside)))
  }

  ghost predicate Step(s: State, ab: Abs, act: Action, s': State, ab': Abs) {
    && |ab.place| == |s.next| && Enabled(s, ab, act) && Can(s, act) && s' == After(s, act)
    && ab' == AbsAfter(s, ab, act)
  }

  ghost predicate Run(states: seq<State>, abs: seq<Abs>, acts: seq<Action>) {
    && |states| == |abs| == |acts| + 1 && Init(states[0], abs[0])
    && forall i | 0 <= i < |acts| :: Step(states[i], abs[i], acts[i], states[i + 1], abs[i + 1])
  }

  lemma {:induction false} RunKeeps(states: seq<State>, abs: seq<Abs>, acts: seq<Action>, i: nat)
    requires Run(states, abs, acts) && i < |states|
    ensures Inv(states[i], abs[i])
  {
    hide After, AbsAfter, Enabled;
    if i == 0 {
      PathNone(states[0].next);
    } else {
      hide Inv;
      RunKeeps(states, abs, acts, i - 1);
      assert Step(states[i - 1], abs[i - 1], acts[i - 1], states[i - 1 + 1], abs[i - 1 + 1]);
      StepRefines(states[i - 1], abs[i - 1], acts[i - 1]);
    }
  }

  /**
   Every run is a run of a stack: in each state the chain from `first` is the stack, without a cycle or a
   repeated node, and each completed operation returns what the stack does at that very step.
   */
  lemma Linearizable(states: seq<State>, abs: seq<Abs>, acts: seq<Action>, i: nat)
    requires Run(states, abs, acts) && i < |states|
    ensures Path(states[i].next, states[i].first, abs[i].stack) && NoDup(abs[i].stack)
    ensures i < |acts| ==>
      Can(states[i], acts[i]) && StackStep(abs[i].stack, Returns(states[i], acts[i]), abs[i + 1].stack)
  {
    hide After, AbsAfter, Returns, StackStep, Path, NoDup, AllAt;
    RunKeeps(states, abs, acts, i);
    if i < |acts| {
      assert Step(states[i], abs[i], acts[i], states[i + 1], abs[i + 1]);
      StepRefines(states[i], abs[i], acts[i]);
    }
  }

  /** No node is lost or in two places: it is outside, in one adder's batch, or on the list. */
  lemma NodesConserved(states: seq<State>, abs: seq<Abs>, acts: seq<Action>, i: nat, x: nat)
    requires Run(states, abs, acts) && i < |states| && x < |states[i].next|
    ensures i < |abs| && x < |abs[i].place|
    ensures x in abs[i].stack <==> abs[i].place[x] == Listed
    ensures forall a | 0 <= a < |states[i].adders| && !states[i].adders[a].Idle? ::
              x in states[i].adders[a].batch <==> abs[i].place[x] == Private(a)
  {
    RunKeeps(states, abs, acts, i);
    var s, ab := states[i], abs[i];
    hide Run, Path, NoDup;
    assert NodeOk(s, ab, x);
    forall a | 0 <= a < |s.adders| && !s.adders[a].Idle? ensures x in s.adders[a].batch <==> ab.place[x] == Private(a) {
      assert AdderOk(s, ab, a);
    }
  }

  // ----- operations end with their events

  ghost predicate Busy(s: State, a: nat) {
    a < |s.adders| && !s.adders[a].Idle?
  }

  /** An adder's batch is the one its `Form` took, until an exchange ends the operation. */
  lemma AdderStep(s: State, ab: Abs, act: Action, s': State, ab': Abs, a: nat)
    requires Step(s, ab, act, s', ab')
    ensures Busy(s, a) && Busy(s', a) ==> s'.adders[a].batch == s.adders[a].batch
    ensures Busy(s, a) && !Busy(s', a) ==>
      act == AddCas(a) && Returns(s, act) == Added(s.adders[a].batch, s.first == None)
    ensures !Busy(s, a) && Busy(s', a) ==> act.Form? && act.a == a && s'.adders[a].batch == act.batch
  {
    hide AllAt, NoDup, Inner;
  }

  lemma {:induction false} AddBegan(states: seq<State>, abs: seq<Abs>, acts: seq<Action>, i: nat, a: nat)
    returns (j: nat)
    requires Run(states, abs, acts) && i < |states| && Busy(states[i], a)
    ensures j < i && acts[j].Form? && acts[j].a == a && states[i].adders[a].batch == acts[j].batch
    ensures forall k | j < k <= i :: Busy(states[k], a)
  {
    hide Step;
    if i == 0 {
      assert false;
    } else {
      assert Step(states[i - 1], abs[i - 1], acts[i - 1], states[i - 1 + 1], abs[i - 1 + 1]);
      AdderStep(states[i - 1], abs[i - 1], acts[i - 1], states[i], abs[i], a);
      if Busy(states[i - 1], a) {
        j := AddBegan(states, abs, acts, i - 1, a);
      } else {
        j := i - 1;
      }
    }
  }

  /** An adder leaves its operation only by a successful exchange: the batch it formed is pushed, and it says so. */
  lemma AddEnds(states: seq<State>, abs: seq<Abs>, acts: seq<Action>, i: nat, a: nat) returns (j: nat)
    requires Run(states, abs, acts) && i < |acts| && Busy(states[i], a) && !Busy(states[i + 1], a)
    ensures j < i && acts[j].Form? && acts[j].a == a && forall k | j < k <= i :: Busy(states[k], a)
    ensures acts[i] == AddCas(a) && Gives(states[i], acts[i], Added(acts[j].batch, abs[i].stack == []))
    ensures abs[i + 1].stack == acts[j].batch + abs[i].stack
  {
    hide Init, Step, After, AbsAfter, Path, NoDup, Busy;
    j := AddBegan(states, abs, acts, i, a);
    Linearizable(states, abs, acts, i);
    StepAt(states, abs, acts, i);
    AdderStep(states[i], abs[i], acts[i], states[i + 1], abs[i + 1], a);
  }

  lemma StepAt(states: seq<State>, abs: seq<Abs>, acts: seq<Action>, i: nat)
    requires Run(states, abs, acts) && i < |acts|
    ensures Step(states[i], abs[i], acts[i], states[i + 1], abs[i + 1])
  {
  }

  /** The consumer leaves `llist_del_first` with the top of the stack removed, or with nothing from an empty one. */
  lemma DelEnds(states: seq<State>, abs: seq<Abs>, acts: seq<Action>, i: nat)
    requires Run(states, abs, acts) && i < |acts| && (acts[i].DelLoad? || !states[i].consumer.Resting?)
    ensures states[i + 1].consumer.Resting? ==>
      && Gives(states[i], acts[i], Removed(First(abs[i].stack)))
      && abs[i + 1].stack == if abs[i].stack == [] then [] else abs[i].stack[1..]
    ensures !states[i + 1].consumer.Resting? && !acts[i].AddCas? ==> Gives(states[i], acts[i], Silent)
  {
    hide Init, Path, NoDup, AllAt, Inner, AbsAfter;
    StepAt(states, abs, acts, i);
    Linearizable(states, abs, acts, i);
  }

  /** An exchange that finds the head it expects ends the operation, and changes the head as it should. */
  lemma ExchangeEnds(s: State, ab: Abs, a: nat)
    requires Inv(s, ab)
    ensures a < |s.adders| && s.adders[a].Cas? && s.first == s.adders[a].first ==>
      && Can(s, AddCas(a)) && After(s, AddCas(a)).adders == s.adders[a := Idle]
      && After(s, AddCas(a)).first == Some(s.adders[a].batch[0])
    ensures s.consumer.HaveNext? && s.first == Some(s.consumer.entry) ==>
      && After(s, DelCas).consumer == Resting && After(s, DelCas).first == s.next[s.consumer.entry]
  {
    hide StackOk, Nodes;
    if a < |s.adders| && s.adders[a].Cas? {
      assert AdderOk(s, ab, a);
    }
  }

  /** The head changes only when an operation ends. */
  lemma {:induction false} HeadChanged(states: seq<State>, abs: seq<Abs>, acts: seq<Action>, j: nat, i: nat)
    returns (k: nat)
    requires Run(states, abs, acts) && j <= i < |states| && states[i].first != states[j].first
    ensures j <= k < i && Can(states[k], acts[k]) && Returns(states[k], acts[k]) != Silent
    ensures acts[k].AddCas? || acts[k].DelCas? || acts[k].DelAll?
  {
    hide AllAt, NoDup, Inner, AbsAfter, Init;
    StepAt(states, abs, acts, i - 1);
    if states[i - 1].first != states[j].first {
      k := HeadChanged(states, abs, acts, j, i - 1);
    } else {
      k := i - 1;
    }
  }

  /** An adder between reading the head and its exchange. */
  ghost predicate Underway(s: State, a: nat) {
    a < |s.adders| && (s.adders[a].Write? || s.adders[a].Cas?)
  }

  /** The head an adder holds is the one it read. */
  lemma {:induction false} HeadHeld(states: seq<State>, abs: seq<Abs>, acts: seq<Action>, j: nat, i: nat, a: nat)
    requires Run(states, abs, acts) && j < i < |states| && acts[j] == AddRead(a)
    requires forall k | j < k <= i :: Underway(states[k], a)
    ensures Underway(states[i], a) && states[i].adders[a].first == states[j].first
    decreases i
  {
    hide AllAt, NoDup, Inner, AbsAfter, Init;
    StepAt(states, abs, acts, i - 1);
    assert Underway(states[i], a);
    if i > j + 1 {
      assert Underway(states[i - 1], a);
      HeadHeld(states, abs, acts, j, i - 1, a);
    }
  }

  /** Lock-free: an exchange of an adder fails only if another operation ended since it read the head. */
  lemma RetryMeansProgress(states: seq<State>, abs: seq<Abs>, acts: seq<Action>, j: nat, i: nat, a: nat)
    returns (k: nat)
    requires Run(states, abs, acts) && j < i < |acts| && acts[j] == AddRead(a) && acts[i] == AddCas(a)
    requires (forall k | j < k <= i :: Underway(states[k], a)) && Busy(states[i + 1], a)
    ensures j <= k < i && Can(states[k], acts[k]) && Returns(states[k], acts[k]) != Silent
  {
    hide AllAt, NoDup, Inner, AbsAfter, Init, Returns;
    StepAt(states, abs, acts, i);
    HeadHeld(states, abs, acts, j, i, a);
    k := HeadChanged(states, abs, acts, j, i);
  }

  /** Left alone, an adder pushes its batch in three steps. */
  lemma AddAlone(s: State, ab: Abs, a: nat) returns (s1: State, s2: State, s3: State)
    requires Inv(s, ab) && a < |s.adders| && s.adders[a].Read?
    ensures Step(s, ab, AddRead(a), s1, ab) && Step(s1, ab, AddWrite(a), s2, ab)
    ensures Step(s2, ab, AddCas(a), s3, Abs(s.adders[a].batch + ab.stack, AbsAfter(s2, ab, AddCas(a)).place))
    ensures Gives(s2, AddCas(a), Added(s.adders[a].batch, ab.stack == [])) && s3.adders == s.adders[a := Idle]
    ensures Path(s3.next, s3.first, s.adders[a].batch + ab.stack)
  {
    hide Inv, StackStep;
    AdderReady(s, ab, a);
    StepRefines(s, ab, AddRead(a));
    s1 := After(s, AddRead(a));
    AdderReady(s1, ab, a);
    StepRefines(s1, ab, AddWrite(a));
    s2 := After(s1, AddWrite(a));
    AdderReady(s2, ab, a);
    StepRefines(s2, ab, AddCas(a));
    s3 := After(s2, AddCas(a));
    StackPath(s3, AbsAfter(s2, ab, AddCas(a)));
    StackPath(s, ab);
  }

  lemma AdderReady(s: State, ab: Abs, a: nat)
    requires Inv(s, ab) && a < |s.adders|
    ensures |ab.place| == |s.next| && (s.adders[a].Read? ==> Enabled(s, ab, AddRead(a)))
    ensures (s.adders[a].Write? ==> Enabled(s, ab, AddWrite(a))) && (s.adders[a].Cas? ==> Enabled(s, ab, AddCas(a)))
  {
  }

  lemma StackPath(s: State, ab: Abs)
    requires Inv(s, ab)
    ensures Path(s.next, s.first, ab.stack) && (s.first == None <==> ab.stack == []) && |ab.place| == |s.next|
  {
  }

  /** Left alone, the consumer takes the top in three steps. */
  lemma DelAlone(s: State, ab: Abs) returns (s1: State, s2: State, s3: State)
    requires Inv(s, ab) && s.consumer == Resting && ab.stack != []
    ensures Step(s, ab, DelLoad, s1, ab) && Step(s1, ab, DelNext, s2, ab)
    ensures Step(s2, ab, DelCas, s3, Abs(ab.stack[1..], AbsAfter(s2, ab, DelCas).place))
    ensures Gives(s2, DelCas, Removed(Some(ab.stack[0]))) && Path(s3.next, s3.first, ab.stack[1..])
    ensures s3.consumer == Resting && s3.adders == s.adders && s3.next == s.next
  {
    hide Inv, StackStep;
    StackPath(s, ab);
    StepRefines(s, ab, DelLoad);
    s1 := After(s, DelLoad);
    StackPath(s1, ab);
    StepRefines(s1, ab, DelNext);
    s2 := After(s1, DelNext);
    StackPath(s2, ab);
    StepRefines(s2, ab, DelCas);
    s3 := After(s2, DelCas);
    StackPath(s3, AbsAfter(s2, ab, DelCas));
  }

  // ----- who writes a next field

  /** A step writes only the next fields of nodes in the batch of the adder that takes it. */
  lemma OnlyOwnNodes(states: seq<State>, abs: seq<Abs>, acts: seq<Action>, i: nat, x: nat)
    requires Run(states, abs, acts) && i < |acts| && x < |states[i].next|
    ensures |states[i + 1].next| == |states[i].next| == |abs[i + 1].place|
    ensures states[i + 1].next[x] != states[i].next[x] ==> abs[i + 1].place[x].Private?
  {
    hide Path, NoDup, Restamp;
    StepAt(states, abs, acts, i);
    RunKeeps(states, abs, acts, i);
    RunKeeps(states, abs, acts, i + 1);
    OwnNodes(states[i], abs[i], acts[i], states[i + 1], abs[i + 1], x);
  }

  lemma OwnNodes(s: State, ab: Abs, act: Action, s': State, ab': Abs, x: nat)
    requires Inv(s, ab) && Inv(s', ab') && Step(s, ab, act, s', ab') && x < |s.next|
    ensures |s'.next| == |s.next|
    ensures s'.next[x] != s.next[x] ==> ab'.place[x].Private?
  {
    hide Path, NoDup, StackOk, Nodes;
    if act.Form? || act.AddWrite? {
      assert AdderOk(s', ab', act.a);
    }
  }

  /** What `llist_del_all` took stays the chain it was, for as long as nobody adds one of its nodes again. */
  lemma {:induction false} TakenStays(states: seq<State>, abs: seq<Abs>, acts: seq<Action>, i: nat, j: nat)
    requires Run(states, abs, acts) && i < j < |states| && acts[i].DelAll?
    requires forall k, x | i < k <= j && x in abs[i].stack && x < |abs[k].place| :: !abs[k].place[x].Private?
    ensures Gives(states[i], acts[i], RemovedAll(states[i].first))
    ensures Path(states[j].next, states[i].first, abs[i].stack) && states[i + 1].first == None
    decreases j
  {
    hide Init, Path, NoDup, AllAt, AbsAfter;
    StepAt(states, abs, acts, i);
    if j == i + 1 {
      Linearizable(states, abs, acts, i);
    } else {
      TakenStays(states, abs, acts, i, j - 1);
      KeptPath(states, abs, acts, j - 1, abs[i].stack, states[i].first);
    }
  }

  lemma KeptPath(states: seq<State>, abs: seq<Abs>, acts: seq<Action>, i: nat, c: seq<nat>, from: Option<nat>)
    requires Run(states, abs, acts) && i < |acts| && Path(states[i].next, from, c)
    requires forall x | x in c && x < |abs[i + 1].place| :: !abs[i + 1].place[x].Private?
    ensures Path(states[i + 1].next, from, c)
  {
    hide Init, Step;
    forall x: nat | x < |states[i].next|
      ensures |states[i + 1].next| == |states[i].next| == |abs[i + 1].place|
      ensures states[i + 1].next[x] != states[i].next[x] ==> abs[i + 1].place[x].Private?
    {
      OnlyOwnNodes(states, abs, acts, i, x);
    }
    StepAt(states, abs, acts, i);
    NextLength(states[i], abs[i], acts[i], states[i + 1], abs[i + 1]);
    forall p | 0 <= p < |c| ensures states[i + 1].next[c[p]] == states[i].next[c[p]] {
      assert c[p] in c;
    }
    PathFrame(states[i].next, states[i + 1].next, from, c);
  }

  lemma NextLength(s: State, ab: Abs, act: Action, s': State, ab': Abs)
    requires Step(s, ab, act, s', ab')
    ensures |s'.next| == |s.next|
  {
  }

  // ----- why there must be one consumer

  /** A state with a second consumer's place beside the first's. */
  datatype Pair = Pair(s: State, other: Consumer)

  /** A step of the second consumer is a step of a consumer at its place; all others step as before. */
  ghost predicate PairStep(p: Pair, act: Action, second: bool, p': Pair) {
    if !second then Can(p.s, act) && p' == Pair(After(p.s, act), p.other)
    else
      var q := p.s.(consumer := p.other);
      Can(q, act) && p' == Pair(After(q, act).(consumer := p.s.consumer), After(q, act).consumer)
  }

  ghost predicate Gives(s: State, act: Action, e: Event) {
    Can(s, act) && Returns(s, act) == e
  }

  ghost predicate PairRun(ps: seq<Pair>, acts: seq<Action>, second: bool) {
    |ps| == |acts| + 1 && forall i | 0 <= i < |acts| :: PairStep(ps[i], acts[i], second, ps[i + 1])
  }

  ghost function TwoNodes(first: Option<nat>, next: Option<nat>, adder: Adder, consumer: Consumer): State {
    State(first, [next, None], [adder], consumer)
  }

  /** The first consumer reads its entry, node 0, and the next field of it, node 1, of the list 0, 1. */
  lemma FirstConsumerReads() returns (ps: seq<Pair>)
    ensures |ps| == 3 && ps[0] == Pair(TwoNodes(Some(0), Some(1), Idle, Resting), Resting)
    ensures PairRun(ps, [DelLoad, DelNext], false)
    ensures ps[2] == Pair(TwoNodes(Some(0), Some(1), Idle, HaveNext(0, Some(1))), Resting)
  {
    ps := [Pair(TwoNodes(Some(0), Some(1), Idle, Resting), Resting),
           Pair(TwoNodes(Some(0), Some(1), Idle, Have(0)), Resting),
           Pair(TwoNodes(Some(0), Some(1), Idle, HaveNext(0, Some(1))), Resting)];
  }

  /** The second consumer takes both nodes off the list. */
  lemma SecondConsumerTakesBoth() returns (ps: seq<Pair>)
    ensures |ps| == 7 && ps[0] == Pair(TwoNodes(Some(0), Some(1), Idle, HaveNext(0, Some(1))), Resting)
    ensures PairRun(ps, [DelLoad, DelNext, DelCas, DelLoad, DelNext, DelCas], true)
    ensures Gives(ps[2].s.(consumer := ps[2].other), DelCas, Removed(Some(0)))
    ensures Gives(ps[5].s.(consumer := ps[5].other), DelCas, Removed(Some(1)))
    ensures ps[6] == Pair(TwoNodes(None, Some(1), Idle, HaveNext(0, Some(1))), Resting)
  {
    var c := HaveNext(0, Some(1));
    ps := [Pair(TwoNodes(Some(0), Some(1), Idle, c), Resting), Pair(TwoNodes(Some(0), Some(1), Idle, c), Have(0)),
           Pair(TwoNodes(Some(0), Some(1), Idle, c), HaveNext(0, Some(1))),
           Pair(TwoNodes(Some(1), Some(1), Idle, c), Resting),
           Pair(TwoNodes(Some(1), Some(1), Idle, c), Have(1)),
           Pair(TwoNodes(Some(1), Some(1), Idle, c), HaveNext(1, None)),
           Pair(TwoNodes(None, Some(1), Idle, c), Resting)];
  }

  /** An adder puts node 0 back, and the first consumer's exchange succeeds with its stale next. */
  lemma StaleExchange() returns (ps: seq<Pair>)
    ensures |ps| == 6 && ps[0] == Pair(TwoNodes(None, Some(1), Idle, HaveNext(0, Some(1))), Resting)
    ensures PairRun(ps, [Form(0, [0], [Some(1), None]), AddRead(0), AddWrite(0), AddCas(0), DelCas], false)
    ensures Gives(ps[3].s, AddCas(0), Added([0], true)) && Gives(ps[4].s, DelCas, Removed(Some(0)))
    ensures ps[5].s.first == Some(1) && Path(ps[5].s.next, ps[5].s.first, [1])
  {
    var c := HaveNext(0, Some(1));
    ps := [Pair(TwoNodes(None, Some(1), Idle, c), Resting), Pair(TwoNodes(None, Some(1), Read([0]), c), Resting),
           Pair(TwoNodes(None, Some(1), Write([0], None), c), Resting),
           Pair(TwoNodes(None, None, Cas([0], None), c), Resting),
           Pair(TwoNodes(Some(0), None, Idle, c), Resting), Pair(TwoNodes(Some(1), None, Idle, Resting), Resting)];
  }

  /**
   With two consumers the list can be left wrong: in this schedule nodes 0 and 1 are removed, node 0 is
   added and removed again, and node 1, which nobody added, is back on the list.
   */
  lemma TwoConsumersBreak() returns (a: seq<Pair>, b: seq<Pair>, c: seq<Pair>)
    ensures |a| == 3 && |b| == 7 && |c| == 6 && a[2] == b[0] && b[6] == c[0]
    ensures Path(a[0].s.next, a[0].s.first, [0, 1]) && a[0].s.consumer == a[0].other == Resting
    ensures PairRun(a, [DelLoad, DelNext], false)
    ensures PairRun(b, [DelLoad, DelNext, DelCas, DelLoad, DelNext, DelCas], true)
    ensures PairRun(c, [Form(0, [0], [Some(1), None]), AddRead(0), AddWrite(0), AddCas(0), DelCas], false)
    ensures Gives(b[2].s.(consumer := b[2].other), DelCas, Removed(Some(0)))
    ensures Gives(b[5].s.(consumer := b[5].other), DelCas, Removed(Some(1)))
    ensures Gives(c[3].s, AddCas(0), Added([0], true)) && Gives(c[4].s, DelCas, Removed(Some(0)))
    ensures Path(c[5].s.next, c[5].s.first, [1])
  {
    hide PairRun, Gives;
    a := FirstConsumerReads();
    b := SecondConsumerTakesBoth();
    c := StaleExchange();
  }

  // ----- reversing a detached chain

  ghost function Reversed(c: seq<nat>): (r: seq<nat>)
    ensures |r| == |c|
  {
    if c == [] then [] else Reversed(c[1..]) + [c[0]]
  }

  lemma {:induction false} ReversedAt(c: seq<nat>, k: nat)
    requires k < |c|
    ensures Reversed(c)[k] == c[|c| - 1 - k]
  {
    if k < |c| - 1 {
      ReversedAt(c[1..], k);
    }
  }

  /** Adding oldest first and reading newest first undo each other. */
  lemma {:induction false} ReversedTwice(c: seq<nat>)
    ensures Reversed(Reversed(c)) == c
  {
    forall k | 0 <= k < |c| ensures Reversed(Reversed(c))[k] == c[k] {
      ReversedAt(Reversed(c), k);
      ReversedAt(c, |c| - 1 - k);
    }
  }

  class Memory {
    var next: seq<Option<nat>>

    /** Reverse the chain that starts at `head`, in place. */
    method ReverseOrder(head: Option<nat>, ghost c: seq<nat>) returns (newHead: Option<nat>)
      requires Path(next, head, c) && NoDup(c)
      modifies this
      ensures Path(next, newHead, Reversed(c)) && |next| == |old(next)|
      ensures forall x | 0 <= x < |next| && x !in c :: next[x] == old(next)[x]
    {
      var cur := head;
      newHead := None;
      ghost var k := 0;
      assert c[..0] == [] && c[0..] == c;
      while cur.Some?
        invariant k <= |c| && |next| == |old(next)| && Path(next, cur, c[k..]) && Path(next, newHead, Reversed(c[..k]))
        invariant forall x | 0 <= x < |next| && x !in c :: next[x] == old(next)[x]
        decreases |c| - k
      {
        var tmp := cur.value;
        RotateOne(next, cur, newHead, c, k);
        cur := next[tmp];
        next := next[tmp := newHead];
        newHead := Some(tmp);
        k := k + 1;
      }
      assert c[..k] == c;
    }
  }

  lemma {:induction false} ReversedSnoc(c: seq<nat>, k: nat)
    requires k < |c|
    ensures Reversed(c[..k + 1]) == [c[k]] + Reversed(c[..k])
  {
    var d, e := c[..k + 1], c[..k];
    forall i | 0 <= i < |d| ensures Reversed(d)[i] == ([c[k]] + Reversed(e))[i] {
      ReversedAt(d, i);
      if i > 0 {
        ReversedAt(e, i - 1);
      }
    }
  }

  lemma ReversedWithin(c: seq<nat>, k: nat)
    requires k < |c| && NoDup(c)
    ensures forall i | 0 <= i < k :: Reversed(c[..k])[i] != c[k]
  {
    forall i | 0 <= i < k ensures Reversed(c[..k])[i] != c[k] {
      ReversedAt(c[..k], i);
    }
  }

  /** Moving one node from the front of the rest to the front of the reversed part. */
  lemma RotateOne(next: seq<Option<nat>>, cur: Option<nat>, newHead: Option<nat>, c: seq<nat>, k: nat)
    requires cur.Some? && k <= |c| && NoDup(c) && Path(next, cur, c[k..]) && Path(next, newHead, Reversed(c[..k]))
    ensures k < |c| && cur.value == c[k] < |next|
    ensures Path(next[c[k] := newHead], next[c[k]], c[k + 1..])
    ensures Path(next[c[k] := newHead], Some(c[k]), Reversed(c[..k + 1]))
  {
    var rest, t := c[k..], c[k];
    var next' := next[t := newHead];
    assert rest[0] == t && rest[1..] == c[k + 1..];
    PathRest(next, rest);
    assert next[rest[0]] == Follower(rest, 0);
    var beyond := c[k + 1..];
    forall p | 0 <= p < |beyond| ensures beyond[p] != t {
      assert beyond[p] == c[k + 1 + p];
    }
    PathFrame(next, next', next[t], beyond);
    ReversedWithin(c, k);
    PathFrame(next, next', newHead, Reversed(c[..k]));
    PathPush(next', t, Reversed(c[..k]));
    ReversedSnoc(c, k);
  }
}
