/** Singly linked lists over an array of `next` fields, as the sequence of nodes a walk visits. */
module Chains {
  import opened Options

  ghost function First(c: seq<nat>): Option<nat> {
    if c == [] then None else Some(c[0])
  }

  ghost function Follower(c: seq<nat>, p: nat): Option<nat>
    requires p < |c|
  {
    if p + 1 < |c| then Some(c[p + 1]) else None
  }

  /** Following `next` from `from` visits `c` and ends. */
  ghost predicate Path(next: seq<Option<nat>>, from: Option<nat>, c: seq<nat>) {
    from == First(c) && forall p | 0 <= p < |c| :: c[p] < |next| && next[c[p]] == Follower(c, p)
  }

  ghost predicate NoDup(c: seq<nat>) {
    forall i, j | 0 <= i < j < |c| :: c[i] != c[j]
  }

  /** All of these nodes are at the same place. */
  ghost predicate AllAt<P>(place: seq<P>, c: seq<nat>, at: P) {
    forall p | 0 <= p < |c| :: c[p] < |place| && place[c[p]] == at
  }

  /** These nodes moved to one place, the others stayed. */
  ghost function Restamp<P>(place: seq<P>, c: seq<nat>, at: P): (r: seq<P>)
    ensures |r| == |place|
    ensures forall x | 0 <= x < |place| :: r[x] == (if x in c then at else place[x])
  {
    seq(|place|, x requires 0 <= x < |place| => if x in c then at else place[x])
  }

  ghost function Range(n: nat): (r: seq<nat>)
    ensures |r| == n && forall i | 0 <= i < n :: r[i] == i
  {
    seq(n, i requires 0 <= i => i)
  }

  lemma PathAt(next: seq<Option<nat>>, from: Option<nat>, c: seq<nat>, p: nat)
    requires Path(next, from, c) && p < |c|
    ensures from == Some(c[0]) && c[p] < |next| && next[c[p]] == Follower(c, p)
  {
  }

  lemma PathNone(next: seq<Option<nat>>)
    ensures Path(next, None, []) && NoDup([])
  {
  }

  lemma PathRest(next: seq<Option<nat>>, c: seq<nat>)
    requires Path(next, First(c), c) && c != []
    ensures Path(next, Follower(c, 0), c[1..]) && (NoDup(c) ==> NoDup(c[1..]))
  {
    forall p | 0 <= p < |c| - 1 ensures Follower(c[1..], p) == Follower(c, p + 1) && c[1..][p] == c[p + 1] {
    }
  }

  /** A node in front of a chain, its next field pointing at the chain's start. */
  lemma PathPush(next: seq<Option<nat>>, t: nat, c: seq<nat>)
    requires t < |next| && Path(next, next[t], c)
    ensures Path(next, Some(t), [t] + c)
  {
    var d := [t] + c;
    forall p | 0 <= p < |d| ensures d[p] < |next| && next[d[p]] == Follower(d, p) {
      if p > 0 {
        assert Follower(d, p) == Follower(c, p - 1);
      }
    }
  }

  lemma PathAppend(next: seq<Option<nat>>, next': seq<Option<nat>>, from: Option<nat>, c: seq<nat>, t: nat)
    requires Path(next, from, c) && NoDup(c) && t !in c && t < |next| == |next'| && next'[t] == None
    requires forall p | 0 <= p < |c| - 1 :: next'[c[p]] == next[c[p]]
    requires c != [] ==> next'[c[|c| - 1]] == Some(t)
    ensures Path(next', if c == [] then Some(t) else from, c + [t]) && NoDup(c + [t])
  {
    var d := c + [t];
    forall p | 0 <= p < |d| ensures d[p] < |next'| && next'[d[p]] == Follower(d, p) {
      if p < |c| - 1 {
        assert next[c[p]] == Follower(c, p);
      }
    }
  }

  lemma PathFrame(next: seq<Option<nat>>, next': seq<Option<nat>>, from: Option<nat>, c: seq<nat>)
    requires Path(next, from, c) && |next'| == |next| && forall p | 0 <= p < |c| :: next'[c[p]] == next[c[p]]
    ensures Path(next', from, c)
  {
  }

  lemma SameFollower(next: seq<Option<nat>>, from: Option<nat>, c: seq<nat>, d: seq<nat>, p: nat)
    requires Path(next, from, c) && Path(next, from, d) && p < |c| && p < |d| && c[..p + 1] == d[..p + 1]
    ensures Follower(c, p) == Follower(d, p)
  {
    assert c[..p + 1][p] == d[..p + 1][p];
  }

  /** A chain is determined by where it starts. */
  lemma {:induction false} PathUnique(next: seq<Option<nat>>, from: Option<nat>, c: seq<nat>, d: seq<nat>, n: nat)
    requires Path(next, from, c) && Path(next, from, d) && n <= |c|
    ensures n <= |d| && c[..n] == d[..n] && (n == |c| ==> c == d)
  {
    if n == 1 {
      assert c[0] == d[0];
    } else if n > 1 {
      PathUnique(next, from, c, d, n - 1);
      SameFollower(next, from, c, d, n - 2);
    }
    if n == |c| && n > 0 {
      SameFollower(next, from, c, d, n - 1);
    }
  }

  /** Each node but the last points at the one after it. */
  ghost predicate Inner(next: seq<Option<nat>>, b: seq<nat>) {
    forall p | 0 <= p < |b| - 1 :: b[p] < |next| && next[b[p]] == Follower(b, p)
  }

  /** Linked nodes whose last points at a chain go in front of it. */
  lemma PathJoin(next: seq<Option<nat>>, b: seq<nat>, c: seq<nat>, first: Option<nat>)
    requires b != [] && Inner(next, b) && b[|b| - 1] < |next| && next[b[|b| - 1]] == first && Path(next, first, c)
    ensures Path(next, Some(b[0]), b + c)
  {
    var d := b + c;
    forall p | 0 <= p < |d| ensures d[p] < |next| && next[d[p]] == Follower(d, p) {
      if p >= |b| {
        assert d[p] == c[p - |b|] && Follower(d, p) == Follower(c, p - |b|);
      } else if p < |b| - 1 {
        assert Follower(d, p) == Follower(b, p);
      }
    }
  }

  /** The chain behind its first `k` nodes. */
  lemma PathDrop(next: seq<Option<nat>>, from: Option<nat>, c: seq<nat>, k: nat)
    requires Path(next, from, c) && 1 <= k <= |c|
    ensures c[k - 1] < |next| && next[c[k - 1]] == First(c[k..]) && Path(next, next[c[k - 1]], c[k..])
  {
    var t := c[k..];
    assert next[c[k - 1]] == Follower(c, k - 1);
    forall p | 0 <= p < |t| ensures t[p] < |next| && next[t[p]] == Follower(t, p) {
      assert t[p] == c[k + p] && Follower(c, k + p) == Follower(t, p);
    }
  }
}
