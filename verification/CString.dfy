/**
 C strings and what it means to find one in another (section 7.24.5.7 of ISO/IEC 9899:2011).
 A `CString` holds the bytes before the terminator; `At` reads the terminator too, and nothing past
 it, so a method that only reads through `At` never leaves its string.
 */
module CString {
  import opened Options

  type Byte = b: int | 0 <= b < 256

  type CString = s: seq<Byte> | forall i | 0 <= i < |s| :: s[i] != 0 witness []

  function At(s: CString, i: nat): Byte
    requires i <= |s|
  {
    if i < |s| then s[i] else 0
  }

  /** `n` stands in `h` at position `at`. */
  predicate OccursAt(h: seq<int>, n: seq<int>, at: int) {
    0 <= at && at + |n| <= |h| && forall i | 0 <= i < |n| :: n[i] == h[at + i]
  }

  ghost predicate NoneBefore(h: seq<int>, n: seq<int>, at: nat) {
    forall j | 0 <= j < at :: !OccursAt(h, n, j)
  }

  lemma NoneBeforeNext(h: seq<int>, n: seq<int>, at: nat)
    requires NoneBefore(h, n, at) && !OccursAt(h, n, at)
    ensures NoneBefore(h, n, at + 1)
  {
  }

  /** The result of a search: the first occurrence, or nothing when there is none. */
  ghost predicate IsFirstOccurrence(h: seq<int>, n: seq<int>, r: Option<nat>) {
    match r
    case Some(at) => OccursAt(h, n, at) && NoneBefore(h, n, at)
    case None => forall j :: !OccursAt(h, n, j)
  }

  lemma NoneAtAll(h: seq<int>, n: seq<int>, at: nat)
    requires NoneBefore(h, n, at) && |h| < at + |n|
    ensures IsFirstOccurrence(h, n, None)
  {
  }
}
