/** Arithmetic of virtqueue rings: 16-bit indices that wrap, reduced to slots of a ring. */
module VirtRing {

  const U16 := 0x1_0000

  /** Slot `k` places after `from` in a ring of `num`. */
  function At(from: nat, k: nat, num: nat): (r: nat)
    requires num >= 1
    ensures r < num
  {
    (from + k) % num
  }

  /** From slot `from` on, the ring holds `items` in order. */
  ghost predicate Holds<T>(ring: seq<T>, from: nat, items: seq<T>)
    requires |ring| >= 1
  {
    forall k | 0 <= k < |items| :: ring[At(from, k, |ring|)] == items[k]
  }

  lemma MulMono(a: nat, b: nat, n: nat)
    requires a < b
    ensures a * n + n <= b * n
  {
    assert b * n == (a + 1) * n + (b - a - 1) * n;
    assert (b - a - 1) * n >= 0;
  }

  lemma ModUnique(x: nat, k: nat, r: nat, n: nat)
    requires r < n && x == k * n + r
    ensures x % n == r
  {
    var k', r' := x / n, x % n;
    assert x == k' * n + r';
    if k < k' {
      MulMono(k, k', n);
    } else if k' < k {
      MulMono(k', k, n);
    }
  }

  /** Adding a multiple of the ring size changes no slot. */
  lemma ModAddMultiple(x: nat, k: nat, n: nat)
    requires n >= 1
    ensures (x + k * n) % n == x % n
  {
    assert x == x / n * n + x % n;
    assert x + k * n == (x / n + k) * n + x % n;
    ModUnique(x + k * n, x / n + k, x % n, n);
  }

  lemma ModShift(a: nat, k: nat, n: nat)
    requires a < n && k < n
    ensures (a + k) % n == if a + k < n then a + k else a + k - n
  {
  }

  lemma SmallMod(x: nat, n: nat)
    requires x < n
    ensures x % n == x
  {
  }

  /** A 16-bit index and its wrapped value name the same slot. */
  lemma WrapKeepsSlot(x: nat, n: nat)
    requires n >= 1 && U16 % n == 0 && x < 2 * U16
    ensures x % U16 % n == x % n
  {
    if x >= U16 {
      var k := U16 / n;
      assert U16 == k * n;
      assert x % U16 == x - U16;
      ModAddMultiple(x - U16, k, n);
    }
  }

  /** Reducing first and stepping then is stepping and reducing. */
  lemma SlotStep(x: nat, k: nat, n: nat)
    requires n >= 1
    ensures At(x % n, k, n) == At(x, k, n)
  {
    assert x == x / n * n + x % n;
    ModAddMultiple(x % n + k, x / n, n);
  }

  /** Offsets below the ring size name different slots. */
  lemma SlotsDiffer(from: nat, j: nat, k: nat, n: nat)
    requires j < k < n
    ensures At(from, j, n) != At(from, k, n)
  {
    SlotStep(from, j, n);
    SlotStep(from, k, n);
    ModShift(from % n, j, n);
    ModShift(from % n, k, n);
  }

  /** Stepping a 16-bit index by one steps its slot by one, across the wrap too. */
  lemma NextSlot(x: nat, k: nat, n: nat)
    requires n >= 1 && U16 % n == 0 && x < U16
    ensures At((x + 1) % U16, k, n) == At(x, k + 1, n)
  {
    WrapKeepsSlot(x + 1, n);
    SlotStep((x + 1) % U16, k, n);
    SlotStep(x + 1, k, n);
  }

  /** Writing the slot after the last item appends to what the ring holds. */
  lemma RingAppend<T>(ring: seq<T>, from: nat, items: seq<T>, x: T)
    requires |items| < |ring| && Holds(ring, from, items)
    ensures Holds(ring[At(from, |items|, |ring|) := x], from, items + [x])
  {
    hide At;
    forall k: nat | k < |items| ensures At(from, k, |ring|) != At(from, |items|, |ring|) {
      SlotsDiffer(from, k, |items|, |ring|);
    }
  }

  /** Index `from'` names the slot after that of `from`. */
  ghost predicate OneOn(from: nat, from': nat, n: nat)
    requires n >= 1
  {
    forall k: nat {:trigger At(from', k, n)} :: At(from', k, n) == At(from, k + 1, n)
  }

  lemma HostIndexOneOn(x: nat, n: nat)
    requires n >= 1 && U16 % n == 0 && x < U16
    ensures OneOn(x, (x + 1) % U16, n)
  {
    forall k: nat {:trigger At((x + 1) % U16, k, n)} ensures At((x + 1) % U16, k, n) == At(x, k + 1, n) {
      NextSlot(x, k, n);
    }
  }

  lemma DriverIndexOneOn(x: nat, n: nat)
    requires n >= 1
    ensures OneOn(x, (x + 1) % n, n)
  {
    forall k: nat {:trigger At((x + 1) % n, k, n)} ensures At((x + 1) % n, k, n) == At(x, k + 1, n) {
      SlotStep(x + 1, k, n);
    }
  }

  /** Stepping `from` drops the first item. */
  lemma RingDrop<T>(ring: seq<T>, from: nat, from': nat, items: seq<T>)
    requires |ring| >= 1 && items != [] && Holds(ring, from, items) && OneOn(from, from', |ring|)
    ensures Holds(ring, from', items[1..])
    ensures ring[from % |ring|] == items[0]
  {
    assert At(from, 0, |ring|) == from % |ring|;
    hide At;
  }

  lemma IndexStep(x: nat)
    requires x < 2 * U16
    ensures (x % U16 + 1) % U16 == (x + 1) % U16
  {
  }

  /** A 16-bit index tells fewer than 2^16 entries from none, and counts them down. */
  lemma IndexGap(x: nat, k: nat)
    requires x < U16 && k < U16
    ensures (x + k) % U16 == x <==> k == 0
    ensures k >= 1 ==> ((x + 1) % U16 + (k - 1)) % U16 == (x + k) % U16
  {
  }

  /** The driver accepts only queue sizes for which this bit test succeeds: they divide 2^16. */
  lemma PowerOfTwoDivides(num: bv16)
    requires num != 0 && num & (num - 1) == 0
    ensures U16 % (num as int) == 0
  {
    assert num == 1 || num == 2 || num == 4 || num == 8 || num == 16 || num == 32 || num == 64 || num == 128 ||
           num == 256 || num == 512 || num == 1024 || num == 2048 || num == 4096 || num == 8192 || num == 16384
             || num == 32768;
  }

  /**
   For such sizes masking an index with `num - 1` is wrapping it at `num`, which is how the model links a
   fresh queue.
   */
  lemma MaskWraps(x: bv16, num: bv16)
    requires num != 0 && num & (num - 1) == 0 && x <= num
    ensures x & (num - 1) == if x == num then 0 else x
  {
  }
}
