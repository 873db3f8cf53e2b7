/**
 Combinatorics of words, as the two-way substring search needs it: periods, the two opposite
 alphabetical orders on suffixes, and the critical factorization theorem.

 Words are indexed in place (`n`, a start, an end) instead of sliced. Every "equal at distance p"
 quantifier binds both indices, so that it cannot instantiate itself.
 */
module Words {

  /** `n[lo..hi)` repeats itself at distance `p`. */
  ghost predicate Period(n: seq<int>, lo: nat, hi: nat, p: nat)
    requires hi <= |n|
  {
    forall i, j | lo <= i < hi && lo <= j < hi && j == i + p :: n[i] == n[j]
  }

  /** `p` is a period of `n[lo..hi)`, fits into it, and no smaller positive distance is a period. */
  ghost predicate SmallestPeriod(n: seq<int>, lo: nat, hi: nat, p: nat)
    requires hi <= |n|
  {
    && 1 <= p
    && lo + p <= hi
    && Period(n, lo, hi, p)
    && forall d | 0 < d < p :: !Period(n, lo, hi, d)
  }

  /** A repetition of length `s` is centred at `cut`, clipped at both ends of `n`. */
  ghost predicate LocalPeriod(n: seq<int>, cut: nat, s: nat) {
    && 1 <= s
    && forall i, j | 0 <= i < |n| && cut <= j < cut + s && j < |n| && j == i + s :: n[i] == n[j]
  }

  /** The alphabet's order, or its reverse. */
  predicate Below(rev: bool, x: int, y: int) {
    if rev then y < x else x < y
  }

  /** Lexicographic order with a proper prefix below its extensions, for either alphabet order. */
  predicate LexLess(rev: bool, s: seq<int>, t: seq<int>) {
    if t == [] then false
    else if s == [] then true
    else Below(rev, s[0], t[0]) || (s[0] == t[0] && LexLess(rev, s[1..], t[1..]))
  }

  /** `n[a..]` is the largest suffix of `n`. */
  ghost predicate MaximalSuffix(rev: bool, n: seq<int>, a: nat)
    requires a <= |n|
  {
    forall q | 0 <= q <= |n| && q != a :: SuffixBelow(rev, n, q, a)
  }

  ghost predicate SuffixBelow(rev: bool, n: seq<int>, q: nat, a: nat)
    requires q <= |n| && a <= |n|
  {
    LexLess(rev, n[q..], n[a..])
  }

  /** Suffixes `q` and `a` agree on `m` places, and `q` then ends or continues with a smaller letter. */
  ghost predicate DropsAt(rev: bool, n: seq<int>, q: nat, a: nat, m: nat) {
    && q + m <= |n|
    && a + m < |n|
    && (forall i, j | q <= i < q + m && j == a + (i - q) :: n[i] == n[j])
    && (q + m == |n| || Below(rev, n[q + m], n[a + m]))
  }

  ghost predicate SuffixLess(rev: bool, n: seq<int>, q: nat, a: nat) {
    exists m: nat :: DropsAt(rev, n, q, a, m)
  }

  lemma {:induction false} LexLessByDrop(rev: bool, n: seq<int>, q: nat, a: nat, m: nat)
    requires DropsAt(rev, n, q, a, m)
    ensures LexLess(rev, n[q..], n[a..])
    decreases m
  {
    if m > 0 {
      assert n[q] == n[a];
      assert DropsAt(rev, n, q + 1, a + 1, m - 1);
      LexLessByDrop(rev, n, q + 1, a + 1, m - 1);
      assert n[q..][1..] == n[q + 1..] && n[a..][1..] == n[a + 1..];
    }
  }

  lemma {:induction false} DropOfLexLess(rev: bool, n: seq<int>, q: nat, a: nat) returns (m: nat)
    requires q <= |n| && a <= |n|
    requires LexLess(rev, n[q..], n[a..])
    ensures DropsAt(rev, n, q, a, m)
    decreases |n| - q
  {
    hide DropsAt;
    if q == |n| || Below(rev, n[q], n[a]) {
      m := 0;
      DropHere(rev, n, q, a);
    } else {
      assert n[q..][1..] == n[q + 1..] && n[a..][1..] == n[a + 1..];
      m := DropOfLexLess(rev, n, q + 1, a + 1);
      DropOneSooner(rev, n, q, a, m);
      m := m + 1;
    }
  }

  lemma DropHere(rev: bool, n: seq<int>, q: nat, a: nat)
    requires q <= |n| && a < |n| && (q == |n| || Below(rev, n[q], n[a]))
    ensures DropsAt(rev, n, q, a, 0)
  {
  }

  lemma DropOneSooner(rev: bool, n: seq<int>, q: nat, a: nat, m: nat)
    requires q < |n| && a < |n| && n[q] == n[a] && DropsAt(rev, n, q + 1, a + 1, m)
    ensures DropsAt(rev, n, q, a, m + 1)
  {
    hide Below;
  }

  /** The index form of the suffix order is the lexicographic order. */
  lemma SuffixLessIsLexLess(rev: bool, n: seq<int>, q: nat, a: nat)
    requires q <= |n| && a <= |n|
    ensures SuffixLess(rev, n, q, a) <==> LexLess(rev, n[q..], n[a..])
  {
    if SuffixLess(rev, n, q, a) {
      var m: nat :| DropsAt(rev, n, q, a, m);
      LexLessByDrop(rev, n, q, a, m);
    }
    if LexLess(rev, n[q..], n[a..]) {
      var m := DropOfLexLess(rev, n, q, a);
    }
  }

  lemma ShareDrop(rev: bool, n: seq<int>, q: nat, a: nat, b: nat, m: nat, k: nat, r: nat)
    requires DropsAt(rev, n, q, a, m) && DropsAt(rev, n, a, b, k)
    requires r == if m < k then m else k
    ensures DropsAt(rev, n, q, b, r)
  {
    forall i, j | q <= i < q + r && j == b + (i - q) ensures n[i] == n[j] {
      var mid := a + (i - q);
      assert n[i] == n[mid];
    }
    assert m < k ==> n[a + m] == n[b + m];
    assert k < m ==> n[q + k] == n[a + k];
  }

  lemma SuffixLessTransitive(rev: bool, n: seq<int>, q: nat, a: nat, b: nat)
    requires SuffixLess(rev, n, q, a) && SuffixLess(rev, n, a, b)
    ensures SuffixLess(rev, n, q, b)
  {
    var m: nat :| DropsAt(rev, n, q, a, m);
    var k: nat :| DropsAt(rev, n, a, b, k);
    var r := if m < k then m else k;
    ShareDrop(rev, n, q, a, b, m, k, r);
    assert DropsAt(rev, n, q, b, r);
  }

  lemma SuffixLessAsymmetric(rev: bool, n: seq<int>, q: nat, a: nat)
    requires SuffixLess(rev, n, q, a)
    ensures !SuffixLess(rev, n, a, q)
  {
    var m: nat :| DropsAt(rev, n, q, a, m);
    forall k: nat | DropsAt(rev, n, a, q, k) ensures false {
    }
  }

  lemma DropBelowMaximal(rev: bool, n: seq<int>, q: nat, a: nat) returns (m: nat)
    requires a <= |n| && MaximalSuffix(rev, n, a)
    requires q <= |n| && q != a
    ensures DropsAt(rev, n, q, a, m)
  {
    assert SuffixBelow(rev, n, q, a);
    m := DropOfLexLess(rev, n, q, a);
  }

  // ----- the critical factorization theorem

  /** No repetition centred at a maximal suffix reaches back within the part before it. */
  lemma RepetitionsAreLong(rev: bool, n: seq<int>, cut: nat, s: nat)
    requires cut < |n| && MaximalSuffix(rev, n, cut)
    requires LocalPeriod(n, cut, s)
    ensures cut < s
  {
    if s <= cut {
      var q := cut - s;
      var m := DropBelowMaximal(rev, n, q, cut);
      assert s <= m;
      // past the repetition, the same comparison pits the maximal suffix against a later one
      var k := m - s;
      forall i, j | cut <= i < cut + k && j == cut + s + (i - cut) ensures n[i] == n[j] {
        assert n[i] == n[j] by { assert q <= i < q + m && j == cut + (i - q); }
      }
      assert q + m == cut + k && cut + m == cut + s + k;
      assert DropsAt(rev, n, cut, cut + s, k);
      assert SuffixBelow(rev, n, cut + s, cut);
      SuffixLessIsLexLess(rev, n, cut + s, cut);
      SuffixLessAsymmetric(rev, n, cut + s, cut);
      assert false;
    }
  }

  /**
   Critical factorization: cut a word before the shorter of its maximal suffixes for the two opposite
   orders; then every repetition centred at the cut is a period of the whole word.
   */
  lemma CriticalFactorization(rev: bool, n: seq<int>, cut: nat, other: nat, s: nat)
    requires other <= cut < |n|
    requires MaximalSuffix(rev, n, cut) && MaximalSuffix(!rev, n, other)
    requires LocalPeriod(n, cut, s)
    ensures cut < s && Period(n, 0, |n|, s)
  {
    RepetitionsAreLong(rev, n, cut, s);
    if cut + s < |n| {
      var m := DropBelowMaximal(rev, n, cut + s, cut);
      var k := DropBelowMaximal(!rev, n, other + s, other);
      var d := cut - other;
      assert d <= k;
      // both comparisons run over the same letters from the cut on
      var r := k - d;
      assert other + s + k == cut + s + r && other + k == cut + r;
      assert cut + s + m == |n| || cut + s + r == |n|;
      forall i, j | 0 <= i < |n| && 0 <= j < |n| && j == i + s ensures n[i] == n[j] {
        if j < cut + s {
        } else if cut + s + m == |n| {
          assert cut + s <= j < cut + s + m && i == cut + (j - (cut + s));
        } else {
          assert other + s <= j < other + s + k && i == other + (j - (other + s));
        }
      }
    }
  }

  /** A period of the word and a period of its right part leave their remainder as a local period. */
  lemma RemainderIsLocalPeriod(n: seq<int>, cut: nat, p: nat, s: nat) returns (r: nat)
    requires 1 <= p && cut + s <= |n| && 1 <= s
    requires Period(n, 0, |n|, s) && Period(n, cut, |n|, p)
    ensures 1 <= r <= p && LocalPeriod(n, cut, r)
  {
    r := s;
    while r > p
      invariant 1 <= r <= s
      invariant LocalPeriod(n, cut, r)
    {
      var r' := r - p;
      forall i, j | 0 <= i < |n| && cut <= j < cut + r' && j < |n| && j == i + r' ensures n[i] == n[j] {
        var far := j + p;
        assert n[j] == n[far];
        assert far == i + r && n[i] == n[far];
      }
      r := r';
    }
  }
}
