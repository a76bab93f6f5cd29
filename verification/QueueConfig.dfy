/** Building a queue: the constructors, the size of the closed_ table, and the packing of
    the seqlock word into 64 bits. */
module QueueConfig {
  import opened Options
  import opened Arith
  import opened TicketIndex
  import opened QueueMachine

  const DEFAULT_MIN_DYNAMIC_CAPACITY: nat := 10
  const DEFAULT_EXPANSION_MULTIPLIER: nat := 10

  /** A queue of capacity zero throws invalid_argument. */
  function StaticQueue(queueCapacity: nat): (c: Option<Config>) {
    if queueCapacity == 0 then None
    else Some(Config(false, queueCapacity, queueCapacity, StrideOf(queueCapacity), 2, 0))
  }

  function DynamicQueue(queueCapacity: nat, minCapacity: nat, expansionMultiplier: nat): (c: Option<Config>) {
    if queueCapacity == 0 then None
    else
      var cap := Min(Max(1, minCapacity), queueCapacity);
      var mult := Max(2, expansionMultiplier);
      Some(Config(true, queueCapacity, cap, StrideOf(cap), mult, MaxClosed(cap, mult, queueCapacity)))
  }

  function DefaultDynamicQueue(queueCapacity: nat): (c: Option<Config>) {
    DynamicQueue(queueCapacity, DEFAULT_MIN_DYNAMIC_CAPACITY, DEFAULT_EXPANSION_MULTIPLIER)
  }

  /** The loop of initQueue. */
  method CountClosed(cap: nat, mult: nat, capacity: nat) returns (maxClosed: nat)
    requires cap > 0 && mult >= 2
    ensures maxClosed == MaxClosed(cap, mult, capacity)
    // the smallest number of multiplications that reaches the full capacity
    ensures cap * Power(mult, maxClosed) >= capacity
    ensures maxClosed > 0 ==> cap * Power(mult, maxClosed - 1) < capacity
  {
    maxClosed := 0;
    var expanded := cap;
    while expanded < capacity
      invariant expanded > 0
      invariant maxClosed + MaxClosed(expanded, mult, capacity) == MaxClosed(cap, mult, capacity)
      decreases capacity - expanded
    {
      MulLe(2, mult, expanded);
      expanded := expanded * mult;
      maxClosed := maxClosed + 1;
    }
    ReachesCapacity(cap, mult, capacity);
  }

  lemma {:induction false} ReachesCapacity(cap: nat, mult: nat, capacity: nat)
    requires cap > 0 && mult >= 2
    ensures cap * Power(mult, MaxClosed(cap, mult, capacity)) >= capacity
    ensures MaxClosed(cap, mult, capacity) > 0 ==> cap * Power(mult, MaxClosed(cap, mult, capacity) - 1) < capacity
    decreases capacity - cap
  {
    if cap < capacity {
      MulLe(2, mult, cap);
      var n := MaxClosed(cap * mult, mult, capacity);
      ReachesCapacity(cap * mult, mult, capacity);
      Regroup(cap, mult, n);
      if n > 0 { Regroup(cap, mult, n - 1); }
    }
  }

  lemma Regroup(cap: nat, mult: nat, n: nat)
    ensures (cap * mult) * Power(mult, n) == cap * Power(mult, n + 1)
  {
    assert (cap * mult) * Power(mult, n) == cap * (mult * Power(mult, n));
  }

  function Power(b: nat, n: nat): (p: nat) {
    if n == 0 then 1 else b * Power(b, n - 1)
  }

  lemma {:induction false} PowerGrows(b: nat, b': nat, m: nat, n: nat)
    requires 0 < b <= b' && m <= n
    ensures Power(b, m) <= Power(b', n)
    decreases n
  {
    if n > 0 {
      var k := if m > 0 then m - 1 else 0;
      PowerGrows(b, b', k, n - 1);
      MulLe(Power(b, k), Power(b', n - 1), b);
      MulLe(b, b', Power(b', n - 1));
    }
  }

  /** The number of closed arrays stays below 32 exactly when 31 multiplications cover the capacity. */
  lemma AtMost31(cap: nat, mult: nat, capacity: nat)
    requires cap > 0 && mult >= 2
    ensures MaxClosed(cap, mult, capacity) <= 31 <==> cap * Power(mult, 31) >= capacity
  {
    var n := MaxClosed(cap, mult, capacity);
    ReachesCapacity(cap, mult, capacity);
    if n <= 31 {
      PowerGrows(mult, mult, n, 31);
      MulLe(Power(mult, n), Power(mult, 31), cap);
    } else {
      PowerGrows(mult, mult, 31, n - 1);
      MulLe(Power(mult, 31), Power(mult, n - 1), cap);
    }
  }

  /** The arguments of a dynamic queue for which at most 31 arrays can be closed. */
  predicate Sufficient(queueCapacity: nat, minCapacity: nat, expansionMultiplier: nat) {
    Min(Max(1, minCapacity), queueCapacity) * Power(Max(2, expansionMultiplier), 31) >= queueCapacity
  }

  /** What was asked for, or the bound it is beyond. */
  predicate AsAsked(got: nat, asked: nat, low: nat, high: nat) {
    low <= got <= high && (low <= asked <= high ==> got == asked) && (asked < low ==> got == low) &&
    (asked > high ==> got == high)
  }

  /** A constructor fails exactly for capacity zero; a static queue is always well formed, and a dynamic one
      exactly when 31 expansions suffice, which the closed count has room for. */
  lemma ConstructorsAreSound(queueCapacity: nat, minCapacity: nat, expansionMultiplier: nat)
    ensures var c := StaticQueue(queueCapacity); c.Some? <==> queueCapacity > 0
    ensures var c := StaticQueue(queueCapacity); c.Some? ==> WfConfig(c.value) && Sized(c.value)
    ensures var c := StaticQueue(queueCapacity);
            c.Some? ==> !c.value.dynamic && c.value.capacity == c.value.initCap == queueCapacity
    ensures var c := DynamicQueue(queueCapacity, minCapacity, expansionMultiplier); c.Some? <==> queueCapacity > 0
    ensures var c := DynamicQueue(queueCapacity, minCapacity, expansionMultiplier);
            c.Some? ==> (WfConfig(c.value) <==> Sufficient(queueCapacity, minCapacity, expansionMultiplier))
    ensures var c := DynamicQueue(queueCapacity, minCapacity, expansionMultiplier);
            c.Some? ==> c.value.dynamic && c.value.capacity == queueCapacity &&
                        AsAsked(c.value.initCap, minCapacity, 1, queueCapacity) &&
                        AsAsked(c.value.mult, expansionMultiplier, 2, c.value.mult)
    ensures var c := DynamicQueue(queueCapacity, minCapacity, expansionMultiplier);
            c.Some? && WfConfig(c.value) ==> Sized(c.value)
  {
    if queueCapacity > 0 {
      var c := DynamicQueue(queueCapacity, minCapacity, expansionMultiplier).value;
      AtMost31(c.initCap, c.mult, queueCapacity);
    }
  }

  /** 31 expansions suffice up to a capacity of 2 to the 31, whatever the other arguments, and with the default
      arguments for every 64-bit capacity. */
  lemma UsuallySufficient(queueCapacity: nat, minCapacity: nat, expansionMultiplier: nat)
    requires queueCapacity > 0
    ensures queueCapacity <= 0x8000_0000 ==> Sufficient(queueCapacity, minCapacity, expansionMultiplier)
    ensures queueCapacity < 0x1_0000_0000_0000_0000 ==> WfConfig(DefaultDynamicQueue(queueCapacity).value)
  {
    var cap, mult := Min(Max(1, minCapacity), queueCapacity), Max(2, expansionMultiplier);
    PowerOfTwo31();
    PowerGrows(2, mult, 31, 31);
    MulLe(1, cap, Power(mult, 31));
    PowerOfTen20();
    PowerGrows(10, 10, 20, 31);
    var defaultCap := Min(Max(1, DEFAULT_MIN_DYNAMIC_CAPACITY), queueCapacity);
    MulLe(1, defaultCap, Power(10, 31));
    ConstructorsAreSound(queueCapacity, DEFAULT_MIN_DYNAMIC_CAPACITY, DEFAULT_EXPANSION_MULTIPLIER);
  }

  /** One element more, started with one slot and doubled, needs a 32nd closed array. */
  lemma OneMoreIsTooMany()
    ensures var c := DynamicQueue(0x8000_0001, 1, 2); c.Some? && c.value.maxClosed == 32 && !WfConfig(c.value)
  {
    PowerOfTwo31();
    ReachesCapacity(1, 2, 0x8000_0001);
    var n := MaxClosed(1, 2, 0x8000_0001);
    if n < 32 {
      PowerGrows(2, 2, n, 31);
    } else if n > 32 {
      PowerGrows(2, 2, 32, n - 1);
    }
  }

  lemma PowerOfTwo31()
    ensures Power(2, 31) == 0x8000_0000 && Power(2, 32) == 0x1_0000_0000
  {
    assert Power(2, 8) == 256;
    assert Power(2, 16) == 65536;
    assert Power(2, 24) == 16777216;
  }

  lemma PowerOfTen20()
    ensures Power(10, 20) == 100_000_000_000_000_000_000
  {
    assert Power(10, 8) == 100_000_000;
    assert Power(10, 16) == 10_000_000_000_000_000;
  }

  // ---- the packed word -------------------------------------------------------

  const SEQLOCK_BITS: nat := 6

  /** dstate_ as an integer. */
  function Packed(w: Word): (state: nat) {
    w.offset * Power(2, SEQLOCK_BITS) + 2 * w.numClosed + if w.locked then 1 else 0
  }

  /** getOffset: shift out the seqlock bits. */
  function GetOffset(state: nat): (offset: nat) {
    state / 64
  }

  /** getNumClosed: half of the seqlock bits. */
  function GetNumClosed(state: nat): (n: nat) {
    (state % 64) / 2
  }

  /** The packed word gives back what was put in exactly when at most 31 arrays are closed. */
  lemma UnpacksExactly(w: Word)
    ensures GetOffset(Packed(w)) == w.offset && GetNumClosed(Packed(w)) == w.numClosed <==> w.numClosed <= 31
    ensures Packed(w) % 2 == 1 <==> w.locked
    ensures !w.locked ==> Packed(w.(locked := true)) == Packed(w) + 1
  {
    var low := 2 * w.numClosed + if w.locked then 1 else 0;
    assert Packed(w) == 64 * w.offset + low by { assert Power(2, 6) == 64; }
    assert GetNumClosed(Packed(w)) <= 31;
    DivModUnique(Packed(w), 2, 32 * w.offset + w.numClosed, if w.locked then 1 else 0);
    if w.numClosed <= 31 {
      DivModUnique(Packed(w), 64, w.offset, low);
    }
  }

  /** So comparing packed words, as the compare-exchange and the validation do, compares the
      records. */
  lemma PackingIsInjective(w1: Word, w2: Word)
    requires w1.numClosed <= 31 && w2.numClosed <= 31
    ensures Packed(w1) == Packed(w2) <==> w1 == w2
  {
    UnpacksExactly(w1);
    UnpacksExactly(w2);
  }

  /** With 32 closed arrays the count carries into the offset: the queue would look for
      tickets one higher and forget its closed arrays. */
  lemma ThirtyTwoClosedArraysOverflow(offset: nat)
    ensures var state := Packed(Word(offset, 32, false));
            GetOffset(state) == offset + 1 && GetNumClosed(state) == 0
  {
    assert Power(2, 6) == 64;
    DivModUnique(Packed(Word(offset, 32, false)), 64, offset + 1, 0);
  }
}
