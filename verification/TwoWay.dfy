/**
 The two-way substring search of libs/string/strstr.c. Pointers are indices: `at` is `h`, `end` is
 `z`. `ip` starts at -1 as an int where the source lets a size_t wrap.
 */
module TwoWay {
  import opened Words
  import opened CString
  import opened Options

  // ----- maximal suffixes

  /** Within the block `n[a..a+p)`, every later start falls below the block's own start. */
  ghost predicate Dominates(rev: bool, n: seq<int>, a: nat, p: nat)
    requires a + p <= |n|
  {
    forall d | 0 < d < p :: FallsBelow(rev, n, a, p, d)
  }

  ghost predicate FallsBelow(rev: bool, n: seq<int>, a: nat, p: nat, d: nat) {
    exists m: nat :: d + m < p && Beaten(rev, n, a, d, m)
  }

  /** The start `a + d` agrees with `a` on `m` letters, then has the smaller one. */
  ghost predicate Beaten(rev: bool, n: seq<int>, a: nat, d: nat, m: nat) {
    && a + d + m < |n|
    && (forall i, j | a <= i < a + m && j == i + d :: n[i] == n[j])
    && Below(rev, n[a + d + m], n[a + m])
  }

  /**
   What the suffix loop knows: `a = ip + 1` beats everything before it, `n[a..e)` with `e = jp + k`
   repeats the dominating block `n[a..a+p)`, and `c` whole blocks end at `jp + 1`.
   */
  ghost predicate Candidate(rev: bool, n: seq<int>, a: nat, p: nat, c: nat, e: nat) {
    && 1 <= p && 1 <= c
    && a + c * p <= e <= |n|
    && a + p <= e
    && e < a + c * p + p
    && (forall q | 0 <= q < a :: SuffixLess(rev, n, q, a))
    && Period(n, a, e, p)
    && Dominates(rev, n, a, p)
  }

  // ----- counting whole blocks

  lemma SplitBlocks(d: nat, p: nat) returns (b: nat, t: nat)
    requires 1 <= p
    ensures b < p && d == b + t * p
  {
    b, t := d % p, d / p;
  }

  lemma BlocksDiff(t: nat, c: nat, p: nat)
    requires t <= c
    ensures (c - t) * p == c * p - t * p
  {
  }

  lemma BlocksLe(t: nat, c: nat, p: nat)
    requires t <= c
    ensures t * p <= c * p
    ensures 1 <= t ==> t * p == (t - 1) * p + p
  {
    BlocksDiff(t, c, p);
    assert 0 <= (c - t) * p;
  }

  lemma BlocksOrder(t: nat, c: nat, p: nat)
    ensures t * p < c * p ==> t < c
    ensures t * p < c * p + p ==> t <= c
  {
    if c <= t {
      BlocksLe(c, t, p);
    }
    if c < t {
      BlocksLe(c + 1, t, p);
    }
  }

  lemma PeriodMultiple(n: seq<int>, lo: nat, hi: nat, p: nat, t: nat)
    requires hi <= |n| && Period(n, lo, hi, p)
    ensures Period(n, lo, hi, t * p)
  {
    if t > 0 {
      PeriodMultiple(n, lo, hi, p, t - 1);
      forall i, j | lo <= i < hi && lo <= j < hi && j == i + t * p ensures n[i] == n[j] {
        var mid := j - p;
        assert mid == i + (t - 1) * p;
        assert lo <= mid < hi by { assert (t - 1) * p >= 0; }
        assert n[i] == n[mid];
      }
    } else {
      assert t * p == 0;
    }
  }

  /** A start `w` (some whole blocks) and a bit `b` after `a` is beaten as the bit is, while the data lasts. */
  lemma BeatenInRepetition(rev: bool, n: seq<int>, a: nat, p: nat, e: nat, b: nat, w: nat) returns (m: nat)
    requires a + p <= e <= |n| && 0 < b < p
    requires Period(n, a, e, w) && Dominates(rev, n, a, p)
    ensures b + m < p
    ensures Beaten(rev, n, a, b, m)
    ensures forall i, j | a <= i < a + m && j == i + (b + w) && j < e :: n[i] == n[j]
    ensures a + (b + w) + m < e ==> Beaten(rev, n, a, b + w, m)
  {
    assert FallsBelow(rev, n, a, p, b);
    m :| b + m < p && Beaten(rev, n, a, b, m);
    BeatenShifted(rev, n, a, p, e, b, w, m);
  }

  lemma BeatenShifted(rev: bool, n: seq<int>, a: nat, p: nat, e: nat, b: nat, w: nat, m: nat)
    requires a + p <= e <= |n| && b + m < p
    requires Period(n, a, e, w) && Beaten(rev, n, a, b, m)
    ensures forall i, j | a <= i < a + m && j == i + (b + w) && j < e :: n[i] == n[j]
    ensures a + (b + w) + m < e ==> Beaten(rev, n, a, b + w, m)
  {
    forall i, j | a <= i < a + m && j == i + (b + w) && j < e ensures n[i] == n[j] {
      var mid := i + b;
      assert n[i] == n[mid];
    }
    if a + (b + w) + m < e {
      var mid := a + b + m;
      assert n[mid] == n[mid + w];
    }
  }

  /** The letter `t` blocks back is the letter the loop compares with, `n[ip + k]`. */
  lemma BlocksBack(rev: bool, n: seq<int>, a: nat, p: nat, c: nat, e: nat, x: nat, t: nat)
    requires Candidate(rev, n, a, p, c, e)
    requires x == e - c * p && 1 <= t <= c
    ensures a <= x < a + p && a <= e - t * p && n[e - t * p] == n[x]
  {
    PeriodMultiple(n, a, e, p, c - t);
    BlocksDiff(t, c, p);
    BlocksLe(t, c, p);
    BlocksLe(1, t, p);
  }

  /** Equal letters: the repetition grows by one letter. */
  lemma ExtendCandidate(rev: bool, n: seq<int>, a: nat, p: nat, c: nat, e: nat, x: nat)
    requires Candidate(rev, n, a, p, c, e) && e < |n|
    requires x == e - c * p && n[x] == n[e]
    ensures e + 1 < a + c * p + p ==> Candidate(rev, n, a, p, c, e + 1)
    ensures e + 1 == a + c * p + p ==> Candidate(rev, n, a, p, c + 1, e + 1)
  {
    BlocksBack(rev, n, a, p, c, e, x, 1);
    assert Period(n, a, e + 1, p);
    assert (c + 1) * p == c * p + p;
  }

  /** A smaller letter: all of `n[a..e]` becomes the dominating block. */
  lemma WidenCandidate(rev: bool, n: seq<int>, a: nat, p: nat, c: nat, e: nat, x: nat)
    requires Candidate(rev, n, a, p, c, e) && e < |n|
    requires x == e - c * p && Below(rev, n[e], n[x])
    ensures Candidate(rev, n, a, e + 1 - a, 1, e + 1)
  {
    var w := e + 1 - a;
    forall d | 0 < d < w ensures FallsBelow(rev, n, a, w, d) {
      WidenAt(rev, n, a, p, c, e, x, d);
    }
  }

  lemma WidenAt(rev: bool, n: seq<int>, a: nat, p: nat, c: nat, e: nat, x: nat, d: nat)
    requires Candidate(rev, n, a, p, c, e) && e < |n|
    requires x == e - c * p && Below(rev, n[e], n[x])
    requires 0 < d < e + 1 - a
    ensures FallsBelow(rev, n, a, e + 1 - a, d)
  {
    var b, t := SplitBlocks(d, p);
    PeriodMultiple(n, a, e, p, t);
    if b == 0 {
      assert 1 <= t <= c by { BlocksOrder(t, c, p); }
      BlocksBack(rev, n, a, p, c, e, x, t);
      assert Beaten(rev, n, a, d, e - a - d);
    } else {
      var m := BeatenInRepetition(rev, n, a, p, e, b, t * p);
      if a + d + m >= e {
        BeatenAtEdge(rev, n, a, p, c, e, x, d, b, t, m);
      }
    }
  }

  /** When the bit's own mismatch lies past `e`, the new letter at `e` is the mismatch. */
  lemma BeatenAtEdge(rev: bool, n: seq<int>, a: nat, p: nat, c: nat, e: nat, x: nat, d: nat, b: nat, t: nat, m: nat)
    requires Candidate(rev, n, a, p, c, e) && e < |n|
    requires x == e - c * p && Below(rev, n[e], n[x])
    requires d == b + t * p < e + 1 - a && 0 < b && b + m < p
    requires Beaten(rev, n, a, b, m)
    requires forall i, j | a <= i < a + m && j == i + d && j < e :: n[i] == n[j]
    requires e <= a + d + m
    ensures Beaten(rev, n, a, d, e - a - d)
  {
    BlocksBack(rev, n, a, p, c, e, x, c);
    var last := e - a - d;
    // b + last and x - a are the same offset in the block: both are e - a modulo p
    assert b + last == x - a by {
      assert b + last + t * p == (x - a) + c * p;
      SameOffset(b + last, t, x - a, c, p);
    }
    if last < m {
      assert n[a + last] == n[a + b + last];
    }
  }

  lemma SameOffset(r: nat, t: nat, s: nat, c: nat, p: nat)
    requires r < p && s < p && r + t * p == s + c * p
    ensures r == s
  {
    if t > c {
      BlocksLe(c + 1, t, p);
    } else if c > t {
      BlocksLe(t + 1, c, p);
    }
  }

  /** A larger letter: the start after the last whole block beats `a` and all starts between. */
  lemma ReplaceCandidate(rev: bool, n: seq<int>, a: nat, p: nat, c: nat, e: nat, x: nat)
    requires Candidate(rev, n, a, p, c, e) && e < |n|
    requires x == e - c * p && Below(rev, n[x], n[e])
    ensures Candidate(rev, n, a + c * p, 1, 1, a + c * p + 1)
  {
    BlocksLe(1, c, p);
    var a' := a + c * p;
    forall q | a <= q < a' ensures SuffixLess(rev, n, q, a') {
      ReplaceAt(rev, n, a, p, c, e, q - a);
    }
    LastStartBeatsAll(rev, n, a, a');
  }

  lemma LastStartBeatsAll(rev: bool, n: seq<int>, a: nat, a': nat)
    requires a < a' < |n|
    requires forall q | 0 <= q < a :: SuffixLess(rev, n, q, a)
    requires forall q | a <= q < a' :: SuffixLess(rev, n, q, a')
    ensures Candidate(rev, n, a', 1, 1, a' + 1)
  {
    forall q | 0 <= q < a ensures SuffixLess(rev, n, q, a') {
      SuffixLessTransitive(rev, n, q, a, a');
    }
  }

  lemma ReplaceAt(rev: bool, n: seq<int>, a: nat, p: nat, c: nat, e: nat, d: nat)
    requires 1 <= p && a + p <= e < |n| && a + c * p <= e
    requires Period(n, a, e, p) && Dominates(rev, n, a, p)
    requires d < c * p && Below(rev, n[e - c * p], n[e])
    ensures SuffixLess(rev, n, a + d, a + c * p)
  {
    var b, t := SplitBlocks(d, p);
    BlocksOrder(t, c, p);
    BlocksDiff(t, c, p);
    BlocksLe(t + 1, c, p);
    PeriodMultiple(n, a, e, p, t);
    PeriodMultiple(n, a, e, p, c - t);
    PeriodMultiple(n, a, e, p, c);
    LaterBlockWins(rev, n, a, p, e, c * p, b, t * p);
  }

  lemma LaterBlockWins(rev: bool, n: seq<int>, a: nat, p: nat, e: nat, w: nat, b: nat, d: nat)
    requires a + p <= e < |n| && a + w <= e && b < p && d + p <= w
    requires Period(n, a, e, d) && Period(n, a, e, w - d) && Period(n, a, e, w) && Dominates(rev, n, a, p)
    requires Below(rev, n[e - w], n[e])
    ensures SuffixLess(rev, n, a + (b + d), a + w)
  {
    hide Period, Dominates, SuffixLess, Beaten, Below;
    if b == 0 {
      EarlierBlocksLose(rev, n, a, e, w, d);
    } else {
      var m := BeatenInRepetition(rev, n, a, p, e, b, d);
      BeatenByLater(rev, n, a, e, w, b + d, m);
    }
  }

  lemma EarlierBlocksLose(rev: bool, n: seq<int>, a: nat, e: nat, w: nat, d: nat)
    requires a + w <= e < |n| && d < w && Period(n, a, e, d) && Period(n, a, e, w - d)
    requires Below(rev, n[e - w], n[e])
    ensures SuffixLess(rev, n, a + d, a + w)
  {
    assert n[e - w] == n[e - w + d];
    assert DropsAt(rev, n, a + d, a + w, e - a - w);
  }

  lemma BeatenByLater(rev: bool, n: seq<int>, a: nat, e: nat, w: nat, d: nat, m: nat)
    requires a + w <= e < |n| && d + m < w && Period(n, a, e, w)
    requires Beaten(rev, n, a, d, m)
    requires Below(rev, n[e - w], n[e])
    ensures SuffixLess(rev, n, a + d, a + w)
  {
    var x := e - a - w;
    var k := if m < x then m else x;
    assert m < x ==> n[a + m] == n[a + m + w];
    assert x < m ==> n[a + x] == n[a + x + d];
    AgreeThroughStart(n, a, d, w, k);
    assert DropsAt(rev, n, a + d, a + w, k);
  }

  lemma AgreeThroughStart(n: seq<int>, a: nat, d: nat, w: nat, k: nat)
    requires a + d + k <= |n| && a + w + k <= |n|
    requires forall i, j | a <= i < a + k && j == i + d :: n[i] == n[j]
    requires forall i, j | a <= i < a + k && j == i + w :: n[i] == n[j]
    ensures forall i, j | a + d <= i < a + d + k && j == a + w + (i - (a + d)) :: n[i] == n[j]
  {
    forall i, j | a + d <= i < a + d + k && j == a + w + (i - (a + d)) ensures n[i] == n[j] {
      var mid := i - d;
      assert n[mid] == n[i];
    }
  }

  lemma LaterStartLoses(rev: bool, n: seq<int>, a: nat, p: nat, q: nat)
    requires 1 <= p && a + p <= |n| && Period(n, a, |n|, p) && Dominates(rev, n, a, p)
    requires a < q <= |n|
    ensures SuffixLess(rev, n, q, a)
  {
    var b, t := SplitBlocks(q - a, p);
    PeriodMultiple(n, a, |n|, p, t);
    if b == 0 {
      assert DropsAt(rev, n, q, a, |n| - q);
    } else {
      var m := BeatenInRepetition(rev, n, a, p, |n|, b, t * p);
      assert DropsAt(rev, n, q, a, if q + m < |n| then m else |n| - q);
    }
  }

  /** At the end of the word the candidate is the maximal suffix and its block the smallest period. */
  lemma CandidateWins(rev: bool, n: seq<int>, a: nat, p: nat, c: nat)
    requires Candidate(rev, n, a, p, c, |n|)
    ensures a < |n| && MaximalSuffix(rev, n, a) && SmallestPeriod(n, a, |n|, p)
  {
    var e := |n|;
    forall q | 0 <= q <= |n| && q != a ensures SuffixBelow(rev, n, q, a) {
      if q > a {
        LaterStartLoses(rev, n, a, p, q);
      }
      SuffixLessIsLexLess(rev, n, q, a);
    }
    forall d | 0 < d < p ensures !Period(n, a, e, d) {
      assert FallsBelow(rev, n, a, p, d);
      var m: nat :| d + m < p && Beaten(rev, n, a, d, m);
      assert n[a + m] != n[a + d + m];
    }
  }

  /** The suffix loop's invariant, in the source's own variables. */
  ghost predicate LoopState(rev: bool, n: seq<int>, ip: int, jp: nat, k: nat, p: nat) {
    && -1 <= ip < jp && 1 <= k <= p && jp + k <= |n|
    && exists c: nat :: LoopBlocks(rev, n, ip, jp, k, p, c)
  }

  ghost predicate LoopBlocks(rev: bool, n: seq<int>, ip: int, jp: nat, k: nat, p: nat, c: nat) {
    -1 <= ip < jp && jp == ip + c * p && Candidate(rev, n, ip + 1, p, c, jp + k)
  }

  lemma StepOnEqual(rev: bool, n: seq<int>, ip: int, jp: nat, k: nat, p: nat)
    requires LoopState(rev, n, ip, jp, k, p) && jp + k < |n|
    requires n[ip + k] == n[jp + k]
    ensures if k == p then LoopState(rev, n, ip, jp + p, 1, p) else LoopState(rev, n, ip, jp, k + 1, p)
  {
    var c: nat :| LoopBlocks(rev, n, ip, jp, k, p, c);
    ExtendCandidate(rev, n, ip + 1, p, c, jp + k, ip + k);
    if k == p {
      BlocksLe(c + 1, c + 1, p);
      assert LoopBlocks(rev, n, ip, jp + p, 1, p, c + 1);
    } else {
      assert LoopBlocks(rev, n, ip, jp, k + 1, p, c);
    }
  }

  lemma StepOnSmaller(rev: bool, n: seq<int>, ip: int, jp: nat, k: nat, p: nat)
    requires LoopState(rev, n, ip, jp, k, p) && jp + k < |n|
    requires Below(rev, n[jp + k], n[ip + k])
    ensures LoopState(rev, n, ip, jp + k, 1, jp + k - ip)
  {
    var c: nat :| LoopBlocks(rev, n, ip, jp, k, p, c);
    WidenCandidate(rev, n, ip + 1, p, c, jp + k, ip + k);
    assert LoopBlocks(rev, n, ip, jp + k, 1, jp + k - ip, 1);
  }

  lemma StepOnLarger(rev: bool, n: seq<int>, ip: int, jp: nat, k: nat, p: nat)
    requires LoopState(rev, n, ip, jp, k, p) && jp + k < |n|
    requires Below(rev, n[ip + k], n[jp + k])
    ensures LoopState(rev, n, jp, jp + 1, 1, 1)
  {
    var c: nat :| LoopBlocks(rev, n, ip, jp, k, p, c);
    ReplaceCandidate(rev, n, ip + 1, p, c, jp + k, ip + k);
    assert jp + 1 == ip + 1 + c * p;
    assert LoopBlocks(rev, n, jp, jp + 1, 1, 1, 1);
  }

  /** One suffix loop; `rev` selects the comparison. */
  method MaxSuffix(n: CString, rev: bool) returns (ip: int, p: nat)
    requires n != []
    ensures -1 <= ip < |n| - 1
    ensures MaximalSuffix(rev, n, ip + 1)
    ensures SmallestPeriod(n, ip + 1, |n|, p)
  {
    var l := |n|;
    ip := -1;
    p := 1;
    var jp: nat, k: nat := 0, 1;
    assert LoopBlocks(rev, n, ip, jp, k, p, 1);
    while jp + k < l
      invariant LoopState(rev, n, ip, jp, k, p)
      decreases l - ip, l - (jp + k)
    {
      if At(n, ip + k) == At(n, jp + k) {
        StepOnEqual(rev, n, ip, jp, k, p);
        if k == p {
          jp := jp + p;
          k := 1;
        } else {
          k := k + 1;
        }
      } else if Below(rev, At(n, jp + k), At(n, ip + k)) {
        StepOnSmaller(rev, n, ip, jp, k, p);
        jp := jp + k;
        k := 1;
        p := jp - ip;
      } else {
        StepOnLarger(rev, n, ip, jp, k, p);
        ip := jp;
        jp := jp + 1;
        k, p := 1, 1;
      }
    }
    ghost var c: nat :| LoopBlocks(rev, n, ip, jp, k, p, c);
    CandidateWins(rev, n, ip + 1, p, c);
  }

  // ----- the critical cut and the shift after a full right half

  /** Every repetition centred at `cut` is longer than the left part and a period of the whole word. */
  ghost predicate Critical(n: seq<int>, cut: nat) {
    cut < |n| && forall s: nat | LocalPeriod(n, cut, s) :: cut < s && Period(n, 0, |n|, s)
  }

  lemma ShorterMaximalSuffixIsCritical(rev: bool, n: seq<int>, cut: nat, other: nat)
    requires other <= cut < |n|
    requires MaximalSuffix(rev, n, cut) && MaximalSuffix(!rev, n, other)
    ensures Critical(n, cut)
  {
    forall s: nat | LocalPeriod(n, cut, s) ensures cut < s && Period(n, 0, |n|, s) {
      CriticalFactorization(rev, n, cut, other, s);
    }
  }

  /** The periodicity test: the left part repeats `p` places on exactly if `p` is a period of the needle. */
  lemma PeriodicNeedle(n: seq<int>, cut: nat, p: nat)
    requires SmallestPeriod(n, cut, |n|, p)
    ensures n[..cut] == n[p..p + cut] <==> Period(n, 0, |n|, p)
  {
    if n[..cut] == n[p..p + cut] {
      forall i, j | 0 <= i < |n| && 0 <= j < |n| && j == i + p ensures n[i] == n[j] {
        if i < cut {
          assert n[..cut][i] == n[p..p + cut][i];
        }
      }
    }
  }

  ghost predicate RepeatsNoSooner(n: seq<int>, cut: nat, p: nat) {
    forall s: nat | LocalPeriod(n, cut, s) :: p <= s
  }

  /** In a periodic needle no repetition at the cut is shorter than the right part's period. */
  lemma PeriodicShift(n: seq<int>, cut: nat, p: nat)
    requires Critical(n, cut) && SmallestPeriod(n, cut, |n|, p)
    requires Period(n, 0, |n|, p)
    ensures RepeatsNoSooner(n, cut, p) && cut < p
  {
    forall s: nat | LocalPeriod(n, cut, s) ensures p <= s {
      assert Period(n, cut, |n|, s);
    }
    assert LocalPeriod(n, cut, p);
  }

  /** In any other needle every repetition at the cut is longer than either part. */
  lemma AperiodicShift(n: seq<int>, cut: nat, p: nat)
    requires Critical(n, cut) && SmallestPeriod(n, cut, |n|, p)
    requires !Period(n, 0, |n|, p)
    ensures 0 < cut && RepeatsNoSooner(n, cut, cut + 1) && RepeatsNoSooner(n, cut, |n| - cut + 1)
  {
    forall s: nat | LocalPeriod(n, cut, s) ensures |n| - cut < s {
      if s <= |n| - cut {
        var r := RemainderIsLocalPeriod(n, cut, p, s);
        assert Period(n, cut, |n|, r);
        assert false;
      }
    }
  }

  /** What the search needs from the needle: `ms` and `p` as the source names them, and `mem0`. */
  ghost predicate Prepared(n: seq<int>, ms: int, p: nat, mem0: nat) {
    && -1 <= ms < |n| - 1
    && 1 <= p <= |n|
    && Critical(n, ms + 1)
    && RepeatsNoSooner(n, ms + 1, p)
    && (mem0 == 0 || (mem0 == |n| - p && ms + 1 < p && Period(n, 0, |n|, p)))
  }

  /** Both suffix loops and the choice between them. */
  method CriticalCut(n: CString) returns (ms: int, p: nat)
    requires n != []
    ensures -1 <= ms < |n| - 1
    ensures Critical(n, ms + 1) && SmallestPeriod(n, ms + 1, |n|, p)
  {
    var p0: nat, ip: int;
    ms, p0 := MaxSuffix(n, false);
    ip, p := MaxSuffix(n, true);
    if ip + 1 > ms + 1 {
      ShorterMaximalSuffixIsCritical(true, n, ip + 1, ms + 1);
      ms := ip;
    } else {
      ShorterMaximalSuffixIsCritical(false, n, ms + 1, ip + 1);
      p := p0;
    }
  }

  method Prepare(n: CString) returns (ms: int, p: nat, mem0: nat)
    requires n != []
    ensures Prepared(n, ms, p, mem0)
  {
    var l := |n|;
    ms, p := CriticalCut(n);
    PeriodicNeedle(n, ms + 1, p);
    if n[..ms + 1] != n[p..p + (ms + 1)] {
      AperiodicShift(n, ms + 1, p);
      mem0 := 0;
      p := (if ms > l - ms - 1 then ms else l - ms - 1) + 1;
    } else {
      PeriodicShift(n, ms + 1, p);
      mem0 := l - p;
    }
  }

  // ----- no shift skips an occurrence

  /** The window at `at` agrees with the needle on `lo..hi`. */
  ghost predicate Matches(h: seq<int>, n: seq<int>, at: nat, lo: nat, hi: nat) {
    && hi <= |n|
    && at + hi <= |h|
    && forall i | lo <= i < hi :: n[i] == h[at + i]
  }

  /** The window's last byte occurs in the needle last at `last`, or nowhere (`last == -1`). */
  lemma LastByteShift(h: seq<int>, n: seq<int>, at: nat, last: int)
    requires n != [] && at + |n| <= |h| && -1 <= last < |n|
    requires forall i | last < i < |n| :: n[i] != h[at + |n| - 1]
    requires NoneBefore(h, n, at)
    ensures NoneBefore(h, n, at + (|n| - 1 - last))
  {
    forall j | at <= j < at + (|n| - 1 - last) ensures !OccursAt(h, n, j) {
      var i := at + |n| - 1 - j;
      assert n[i] != h[j + i];
    }
  }

  /** With `mem` bytes already known to match, a last-byte mismatch rules out every start within them. */
  lemma RememberedShift(h: seq<int>, n: seq<int>, at: nat, mem: nat, p: nat)
    requires 1 <= p && mem == |n| - p && at + |n| <= |h| && Period(n, 0, |n|, p)
    requires Matches(h, n, at, 0, mem) && n[|n| - 1] != h[at + |n| - 1]
    requires NoneBefore(h, n, at)
    ensures NoneBefore(h, n, at + mem)
  {
    forall j | at <= j < at + mem ensures !OccursAt(h, n, j) {
      // x stands p places before the last letter; the window differs there, the needle does not
      var s, x, y := j - at, mem - 1, |n| - 1;
      assert n[x] == n[y];
      assert n[x - s] == n[y - s];
      assert n[x - s] != h[j + (x - s)] || n[y - s] != h[j + (y - s)];
    }
  }

  /** A mismatch at `k` in the right half, with the right half matched up to it. */
  lemma RightHalfShift(h: seq<int>, n: seq<int>, at: nat, cut: nat, k: nat)
    requires Critical(n, cut) && at + |n| <= |h| && cut <= k < |n|
    requires Matches(h, n, at, cut, k) && n[k] != h[at + k]
    requires NoneBefore(h, n, at)
    ensures NoneBefore(h, n, at + (k - cut + 1))
  {
    forall j | at <= j < at + (k - cut + 1) ensures !OccursAt(h, n, j) {
      var s := j - at;
      if s > 0 {
        OverlapIsLocalPeriod(h, n, at, cut, k, s);
      }
      assert n[k - s] == n[k] ==> n[k - s] != h[j + (k - s)];
    }
  }

  /** Two overlapping occurrences `s` apart, the first matched on `cut..k` only, repeat at the cut. */
  lemma OverlapIsLocalPeriod(h: seq<int>, n: seq<int>, at: nat, cut: nat, k: nat, s: nat)
    requires at + |n| <= |h| && cut <= k <= |n| && 1 <= s
    requires cut + s <= k || k == |n|
    requires Matches(h, n, at, cut, k)
    ensures OccursAt(h, n, at + s) ==> LocalPeriod(n, cut, s)
  {
    if OccursAt(h, n, at + s) {
      forall i, j | 0 <= i < |n| && cut <= j < cut + s && j < |n| && j == i + s ensures n[i] == n[j] {
        assert n[i] == h[at + s + i];
        assert n[j] == h[at + j];
      }
    }
  }

  /** A matched right half and a mismatch in the left: nothing before the period, and `mem0` bytes known there. */
  lemma LeftHalfShift(h: seq<int>, n: seq<int>, at: nat, ms: int, p: nat, mem0: nat, k: nat)
    requires Prepared(n, ms, p, mem0) && at + |n| <= |h| && k <= ms
    requires Matches(h, n, at, ms + 1, |n|) && n[k] != h[at + k]
    requires NoneBefore(h, n, at)
    ensures NoneBefore(h, n, at + p)
    ensures Matches(h, n, at + p, 0, mem0)
  {
    forall j | at <= j < at + p ensures !OccursAt(h, n, j) {
      if j > at {
        OverlapIsLocalPeriod(h, n, at, ms + 1, |n|, j - at);
      }
    }
    forall i | 0 <= i < mem0 ensures n[i] == h[at + p + i] {
      var j := i + p;
      assert n[i] == n[j] && n[j] == h[at + j];
    }
  }

  // ----- the search

  /** `byteset` holds the needle's bytes, and `shift` their last positions, counted from one. */
  ghost predicate Tables(n: seq<Byte>, byteset: array<bool>, shift: array<nat>)
    reads byteset, shift
  {
    && byteset.Length == 256 && shift.Length == 256
    && (forall b: Byte | byteset[b] :: 1 <= shift[b] <= |n| && n[shift[b] - 1] == b)
    && (forall i | 0 <= i < |n| :: byteset[n[i]] && i + 1 <= shift[n[i]])
  }

  /** Length of the needle, last-position table and byte set; less than the length if the haystack ends first. */
  method ScanNeedle(h: CString, n: CString, byteset: array<bool>, shift: array<nat>) returns (l: nat)
    requires byteset.Length == 256 && shift.Length == 256
    requires forall b | 0 <= b < 256 :: !byteset[b]
    modifies byteset, shift
    ensures l <= |n| && l <= |h| && (l < |n| ==> l == |h|)
    ensures Tables(n[..l], byteset, shift)
  {
    l := 0;
    while At(n, l) != 0 && At(h, l) != 0
      decreases |n| - l
      invariant l <= |n| && l <= |h|
      invariant Tables(n[..l], byteset, shift)
    {
      byteset[At(n, l)] := true;
      shift[At(n, l)] := l + 1;
      l := l + 1;
    }
  }

  /** The right-half loop: how far the window matches from the cut on. */
  method MatchRight(h: CString, n: CString, at: nat, cut: nat, mem: nat) returns (k: nat)
    requires at + |n| <= |h| && cut <= |n| && mem <= |n|
    requires Matches(h, n, at, 0, mem)
    ensures cut <= k <= |n| && Matches(h, n, at, cut, k)
    ensures k < |n| ==> n[k] != h[at + k]
  {
    k := if cut > mem then cut else mem;
    while At(n, k) != 0 && At(n, k) == At(h, at + k)
      invariant cut <= k <= |n|
      invariant Matches(h, n, at, cut, k)
      decreases |n| - k
    {
      k := k + 1;
    }
  }

  /** The left-half loop: downwards from the cut to what is remembered. */
  method MatchLeft(h: CString, n: CString, at: nat, cut: nat, mem: nat) returns (k: nat)
    requires at + |n| <= |h| && cut <= |n|
    ensures k <= cut && Matches(h, n, at, k, cut)
    ensures k > mem ==> n[k - 1] != h[at + k - 1]
  {
    k := cut;
    while k > mem && At(n, k - 1) == At(h, at + k - 1)
      invariant k <= cut && Matches(h, n, at, k, cut)
    {
      k := k - 1;
    }
  }

  /** The incremental end-of-haystack pointer: on to the terminator, or by at least the needle's length. */
  method GrowEnd(h: CString, end: nat, l: nat) returns (end': nat)
    requires end <= |h|
    ensures end <= end' <= |h| && (end' == |h| || end + l <= end')
  {
    var grow := l - l % 64 + 63;   // l | 63
    if |h| < end + grow {          // memchr finds the terminator
      end' := |h|;
    } else {
      end' := end + grow;
    }
  }

  /** The shift on the window's last byte; zero if that byte matches. */
  method ShiftByLastByte(h: CString, n: CString, byteset: array<bool>, shift: array<nat>,
                         at: nat, ms: int, p: nat, mem0: nat, mem: nat) returns (k: nat)
    requires n != [] && at + |n| <= |h|
    requires Tables(n, byteset, shift) && Prepared(n, ms, p, mem0)
    requires (mem == 0 || mem == mem0) && Matches(h, n, at, 0, mem)
    requires NoneBefore(h, n, at)
    ensures k <= |n| && NoneBefore(h, n, at + k)
    ensures k == 0 <==> n[|n| - 1] == h[at + |n| - 1]
  {
    var l, last := |n|, At(h, at + |n| - 1);
    if byteset[last] {
      k := l - shift[last];
      if k != 0 {
        LastByteShift(h, n, at, l - k - 1);
        if mem0 != 0 && mem != 0 && k < p {
          k := l - p;
          RememberedShift(h, n, at, mem, p);
        }
      }
    } else {
      LastByteShift(h, n, at, -1);
      k := l;
    }
  }

  /** Right half, then left half: a match, or how far to advance and what to remember there. */
  method CompareHalves(h: CString, n: CString, at: nat, ms: int, p: nat, mem0: nat, mem: nat)
    returns (found: bool, step: nat, mem': nat)
    requires n != [] && at + |n| <= |h| && Prepared(n, ms, p, mem0)
    requires Matches(h, n, at, 0, mem) && NoneBefore(h, n, at)
    ensures found <==> OccursAt(h, n, at)
    ensures !found ==> 1 <= step <= |n| && NoneBefore(h, n, at + step)
    ensures !found ==> (mem' == 0 || mem' == mem0) && Matches(h, n, at + step, 0, mem')
  {
    step, mem' := 0, 0;
    var k := MatchRight(h, n, at, ms + 1, mem);
    if At(n, k) != 0 {
      RightHalfShift(h, n, at, ms + 1, k);
      return false, k - ms, 0;
    }
    assert Matches(h, n, at, ms + 1, |n|);
    k := MatchLeft(h, n, at, ms + 1, mem);
    if k <= mem {
      return true, 0, 0;
    }
    LeftHalfShift(h, n, at, ms, p, mem0, k - 1);
    return false, p, mem0;
  }

  /** The search loop, with the needle and its tables prepared. */
  method SearchLoop(h: CString, n: CString, byteset: array<bool>, shift: array<nat>, ms: int, p: nat, mem0: nat)
    returns (r: Option<nat>)
    requires n != []
    requires Tables(n, byteset, shift) && Prepared(n, ms, p, mem0)
    ensures IsFirstOccurrence(h, n, r)
  {
    hide Tables, Prepared;
    var l := |n|;
    var mem, at, end := 0, 0, 0;
    while true
      invariant at <= end <= |h|
      invariant NoneBefore(h, n, at)
      invariant mem == 0 || (mem == mem0 && at + mem <= |h|)
      invariant Matches(h, n, at, 0, mem)
      decreases |h| - at
    {
      if end - at < l {
        end := GrowEnd(h, end, l);
        if end - at < l {
          NoneAtAll(h, n, at);
          return None;
        }
      }
      var k := ShiftByLastByte(h, n, byteset, shift, at, ms, p, mem0, mem);
      if k != 0 {
        at := at + k;
        mem := 0;
        continue;
      }
      var found: bool;
      found, k, mem := CompareHalves(h, n, at, ms, p, mem0, mem);
      if found {
        return Some(at);
      }
      at := at + k;
    }
  }

  method TwoWaySearch(h: CString, n: CString) returns (r: Option<nat>)
    requires n != []
    ensures IsFirstOccurrence(h, n, r)
  {
    var byteset := new bool[256](_ => false);
    var shift := new nat[256];
    var l := ScanNeedle(h, n, byteset, shift);
    if At(n, l) != 0 {
      return None;
    }
    assert n[..l] == n;
    var ms, p, mem0 := Prepare(n);
    r := SearchLoop(h, n, byteset, shift, ms, p, mem0);
  }
}
