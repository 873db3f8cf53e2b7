/**
 The `strstr` dispatcher of libs/string/strstr.c and its rolling searches for needles of two, three
 and four bytes. A word is an int below 2^16 or 2^32; a shift left by eight drops what leaves it, and
 an `|` into clear low bits is a sum.
 */
module Strstr {
  import opened CString
  import opened Options
  import TwoWay

  const WORD16 := 0x1_0000
  const WORD32 := 0x1_0000_0000

  /** The `count` bytes at `i` in one number, most significant first. */
  function Pack(s: CString, i: nat, count: nat): nat
    requires i + count <= |s| + 1
    decreases count
  {
    if count == 0 then 0 else 256 * Pack(s, i, count - 1) + At(s, i + count - 1)
  }

  /** Packing loses nothing: equal words are equal bytes, so a full match is one comparison. */
  lemma {:induction false} PackIsInjective(h: CString, i: nat, n: CString, count: nat)
    requires i + count <= |h| + 1 && count <= |n|
    ensures Pack(h, i, count) == Pack(n, 0, count) <==> forall k | 0 <= k < count :: At(h, i + k) == n[k]
  {
    if count > 0 {
      PackIsInjective(h, i, n, count - 1);
      var hi, lo := Pack(h, i, count - 1), At(h, i + count - 1);
      var hi', lo' := Pack(n, 0, count - 1), At(n, 0 + count - 1);
      assert 256 * hi + lo == 256 * hi' + lo' <==> hi == hi' && lo == lo';
    }
  }

  /** A window's word decides an occurrence; a window holding the terminator never has one. */
  lemma WordDecides(h: CString, n: CString, i: nat)
    requires n != [] && i + |n| <= |h| + 1
    ensures Pack(h, i, |n|) == Pack(n, 0, |n|) <==> OccursAt(h, n, i)
  {
    PackIsInjective(h, i, n, |n|);
    if i + |n| == |h| + 1 && n != [] {
      assert At(h, i + (|n| - 1)) == 0;
    }
  }

  lemma UnfoldPack(s: CString, i: nat)
    ensures i + 2 <= |s| + 1 ==> Pack(s, i, 2) == 256 * At(s, i) + At(s, i + 1)
    ensures i + 3 <= |s| + 1 ==> Pack(s, i, 3) == 65536 * At(s, i) + 256 * At(s, i + 1) + At(s, i + 2)
    ensures i + 4 <= |s| + 1 ==>
      Pack(s, i, 4) == 16777216 * At(s, i) + 65536 * At(s, i + 1) + 256 * At(s, i + 2) + At(s, i + 3)
  {
    if i + 2 <= |s| + 1 {
      assert Pack(s, i, 1) == 256 * Pack(s, i, 0) + At(s, i + 1 - 1);
      assert Pack(s, i, 2) == 256 * Pack(s, i, 1) + At(s, i + 2 - 1);
    }
    if i + 3 <= |s| + 1 {
      assert Pack(s, i, 3) == 256 * Pack(s, i, 2) + At(s, i + 3 - 1);
    }
    if i + 4 <= |s| + 1 {
      assert Pack(s, i, 4) == 256 * Pack(s, i, 3) + At(s, i + 4 - 1);
    }
  }

  // Each loop's update of the word moves the window by one byte.

  lemma RollTwo(s: CString, i: nat, count: nat)
    requires count == 2 && i + count <= |s|
    ensures Pack(s, i + 1, count) == Pack(s, i, count) * 256 % WORD16 + At(s, i + 2)
  {
    UnfoldPack(s, i);
    UnfoldPack(s, i + 1);
  }

  lemma RollThree(s: CString, i: nat, count: nat)
    requires count == 3 && i + count <= |s|
    ensures 256 * Pack(s, i + 1, count) == (256 * Pack(s, i, count) + At(s, i + 3)) * 256 % WORD32
  {
    UnfoldPack(s, i);
    UnfoldPack(s, i + 1);
  }

  lemma RollFour(s: CString, i: nat, count: nat)
    requires count == 4 && i + count <= |s|
    ensures Pack(s, i + 1, count) == Pack(s, i, count) * 256 % WORD32 + At(s, i + 4)
  {
    UnfoldPack(s, i);
    UnfoldPack(s, i + 1);
  }

  method TwoByteSearch(h: CString, n: CString) returns (r: Option<nat>)
    requires |n| == 2 && 1 <= |h|
    ensures IsFirstOccurrence(h, n, r)
  {
    hide Pack, OccursAt;
    var nw := At(n, 0) * 256 + At(n, 1);
    var hw := At(h, 0) * 256 + At(h, 1);
    var at := 1;
    assert nw == Pack(n, 0, |n|) && hw == Pack(h, 0, |n|) by {
      UnfoldPack(n, 0);
      UnfoldPack(h, 0);
    }
    WordDecides(h, n, 0);
    while At(h, at) != 0 && hw != nw
      invariant 1 <= at <= |h| && hw == Pack(h, at - 1, |n|)
      invariant NoneBefore(h, n, at - 1)
      invariant hw == nw <==> OccursAt(h, n, at - 1)
      decreases |h| - at
    {
      RollTwo(h, at - 1, |n|);
      NoneBeforeNext(h, n, at - 1);
      at := at + 1;
      hw := hw * 256 % WORD16 + At(h, at);
      WordDecides(h, n, at - 1);
    }
    if At(h, at) == 0 {
      NoneAtAll(h, n, at - 1);
      return None;
    }
    return Some(at - 1);
  }

  /** The three bytes sit in the upper part of the 32-bit word; the low byte stays clear. */
  method ThreeByteSearch(h: CString, n: CString) returns (r: Option<nat>)
    requires |n| == 3 && 2 <= |h|
    ensures IsFirstOccurrence(h, n, r)
  {
    hide Pack, OccursAt;
    var nw := At(n, 0) * 0x100_0000 + At(n, 1) * 0x1_0000 + At(n, 2) * 0x100;
    var hw := At(h, 0) * 0x100_0000 + At(h, 1) * 0x1_0000 + At(h, 2) * 0x100;
    var at := 2;
    assert nw == 256 * Pack(n, 0, |n|) && hw == 256 * Pack(h, 0, |n|) by {
      UnfoldPack(n, 0);
      UnfoldPack(h, 0);
    }
    WordDecides(h, n, 0);
    while At(h, at) != 0 && hw != nw
      invariant 2 <= at <= |h| && hw == 256 * Pack(h, at - 2, |n|)
      invariant NoneBefore(h, n, at - 2)
      invariant hw == nw <==> OccursAt(h, n, at - 2)
      decreases |h| - at
    {
      RollThree(h, at - 2, |n|);
      NoneBeforeNext(h, n, at - 2);
      at := at + 1;
      hw := (hw + At(h, at)) * 256 % WORD32;
      WordDecides(h, n, at - 2);
    }
    if At(h, at) == 0 {
      NoneAtAll(h, n, at - 2);
      return None;
    }
    return Some(at - 2);
  }

  method FourByteSearch(h: CString, n: CString) returns (r: Option<nat>)
    requires |n| == 4 && 3 <= |h|
    ensures IsFirstOccurrence(h, n, r)
  {
    hide Pack, OccursAt;
    var nw := At(n, 0) * 0x100_0000 + At(n, 1) * 0x1_0000 + At(n, 2) * 0x100 + At(n, 3);
    var hw := At(h, 0) * 0x100_0000 + At(h, 1) * 0x1_0000 + At(h, 2) * 0x100 + At(h, 3);
    var at := 3;
    assert nw == Pack(n, 0, |n|) && hw == Pack(h, 0, |n|) by {
      UnfoldPack(n, 0);
      UnfoldPack(h, 0);
    }
    WordDecides(h, n, 0);
    while At(h, at) != 0 && hw != nw
      invariant 3 <= at <= |h| && hw == Pack(h, at - 3, |n|)
      invariant NoneBefore(h, n, at - 3)
      invariant hw == nw <==> OccursAt(h, n, at - 3)
      decreases |h| - at
    {
      RollFour(h, at - 3, |n|);
      NoneBeforeNext(h, n, at - 3);
      at := at + 1;
      hw := hw * 256 % WORD32 + At(h, at);
      WordDecides(h, n, at - 3);
    }
    if At(h, at) == 0 {
      NoneAtAll(h, n, at - 3);
      return None;
    }
    return Some(at - 3);
  }

  /** `strchr` for a byte other than the terminator. */
  method StrChr(h: CString, c: Byte) returns (r: Option<nat>)
    requires c != 0
    ensures r.Some? ==> r.value < |h| && h[r.value] == c && forall i | 0 <= i < r.value :: h[i] != c
    ensures r.None? ==> forall i | 0 <= i < |h| :: h[i] != c
  {
    var i := 0;
    while At(h, i) != 0 && At(h, i) != c
      invariant i <= |h|
      invariant forall j | 0 <= j < i :: h[j] != c
      decreases |h| - i
    {
      i := i + 1;
    }
    return if At(h, i) != 0 then Some(i) else None;
  }

  /** A first occurrence found from `skip` on is the first one, if the skipped starts lack the first byte. */
  lemma SkipToFirstByte(h: CString, n: CString, skip: nat, r: Option<nat>)
    requires n != [] && skip <= |h|
    requires forall i | 0 <= i < skip :: h[i] != n[0]
    requires IsFirstOccurrence(h[skip..], n, r)
    ensures IsFirstOccurrence(h, n, if r.Some? then Some(skip + r.value) else None)
  {
    forall j | 0 <= j ensures OccursAt(h, n, skip + j) <==> OccursAt(h[skip..], n, j) {
    }
    forall j | 0 <= j < skip ensures !OccursAt(h, n, j) {
      assert h[j + 0] != n[0];
    }
    forall j | OccursAt(h, n, j) ensures OccursAt(h[skip..], n, j - skip) {
      assert OccursAt(h, n, skip + (j - skip));
    }
  }

  method StrStr(h: CString, n: CString) returns (r: Option<nat>)
    ensures IsFirstOccurrence(h, n, r)
  {
    if At(n, 0) == 0 {
      return Some(0);
    }
    r := StrChr(h, At(n, 0));
    if r.None? || At(n, 1) == 0 {
      return;
    }
    var skip := r.value;
    var rest: CString := h[skip..];
    if At(rest, 1) == 0 {
      r := None;
    } else if At(n, 2) == 0 {
      r := TwoByteSearch(rest, n);
    } else if At(rest, 2) == 0 {
      r := None;
    } else if At(n, 3) == 0 {
      r := ThreeByteSearch(rest, n);
    } else if At(rest, 3) == 0 {
      r := None;
    } else if At(n, 4) == 0 {
      r := FourByteSearch(rest, n);
    } else {
      r := TwoWay.TwoWaySearch(rest, n);
    }
    SkipToFirstByte(h, n, skip, r);
    r := if r.Some? then Some(skip + r.value) else None;
  }
}
