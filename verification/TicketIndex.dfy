/** How a ticket picks its slot: `computeStride`, `idx` and `turn` of the ticketed queue.

    The stride is the best of nine small primes for a given capacity.  Whatever prime
    wins is coprime to the capacity, which is what makes a lap of `capacity` tickets
    visit `capacity` different slots. */
module TicketIndex {
  import opened Arith

  const SMALL_PRIMES: seq<nat> := [2, 3, 5, 7, 11, 13, 17, 19, 23]

  ghost predicate Coprime(a: nat, b: nat) {
    forall d: nat :: d > 1 && a % d == 0 ==> b % d != 0
  }

  ghost predicate Prime(p: nat) {
    p > 1 && forall d: nat :: 1 < d < p ==> p % d != 0
  }

  /** The distance, around the ring of slots, between the slots of neighbouring tickets. */
  function Separation(stride: nat, capacity: nat): (sep: nat)
    requires capacity > 0
  {
    Min(stride % capacity, capacity - stride % capacity)
  }

  predicate Eligible(stride: nat, capacity: nat)
    requires capacity > 0 && stride > 0
  {
    stride % capacity != 0 && capacity % stride != 0
  }

  /** The stride chosen after looking at the first n primes. */
  function BestStride(capacity: nat, n: nat): (stride: nat)
    requires capacity > 0 && n <= |SMALL_PRIMES|
    ensures stride == 1 || (stride in SMALL_PRIMES[..n] && Eligible(stride, capacity))
    ensures stride > 0
  {
    if n == 0 then 1
    else
      var before := BestStride(capacity, n - 1);
      var p := SMALL_PRIMES[n - 1];
      if Eligible(p, capacity) && Separation(p, capacity) > BestSeparation(capacity, n - 1) then p else before
  }

  function BestSeparation(capacity: nat, n: nat): (sep: nat)
    requires capacity > 0 && n <= |SMALL_PRIMES|
  {
    if n == 0 then 1
    else
      var before := BestSeparation(capacity, n - 1);
      var p := SMALL_PRIMES[n - 1];
      if Eligible(p, capacity) && Separation(p, capacity) > before then Separation(p, capacity) else before
  }

  function StrideOf(capacity: nat): (stride: nat)
    requires capacity > 0
    ensures stride > 0
  {
    BestStride(capacity, |SMALL_PRIMES|)
  }

  /** The loop of `computeStride`. */
  method ComputeStride(capacity: nat) returns (bestStride: nat)
    requires capacity > 0
    ensures bestStride == StrideOf(capacity)
    ensures Coprime(bestStride, capacity)
    // No small prime that may be used spreads neighbouring tickets further apart.
    ensures forall i :: 0 <= i < |SMALL_PRIMES| ==> NoFurther(i, capacity, bestStride)
  {
    bestStride := 1;
    var bestSep := 1;
    for n := 0 to |SMALL_PRIMES|
      invariant bestStride == BestStride(capacity, n)
      invariant bestSep == BestSeparation(capacity, n)
    {
      var stride := SMALL_PRIMES[n];
      if stride % capacity == 0 || capacity % stride == 0 {
        continue;
      }
      var sep := stride % capacity;
      sep := Min(sep, capacity - sep);
      if sep > bestSep {
        bestStride := stride;
        bestSep := sep;
      }
    }
    StrideIsCoprime(capacity);
    SpreadsBest(capacity, |SMALL_PRIMES|);
  }

  ghost predicate NoFurther(i: nat, capacity: nat, stride: nat)
    requires capacity > 0 && i < |SMALL_PRIMES|
  {
    Eligible(SMALL_PRIMES[i], capacity) ==>
      Separation(SMALL_PRIMES[i], capacity) <= Max(1, Separation(stride, capacity))
  }

  lemma {:induction false} SpreadsBest(capacity: nat, n: nat)
    requires capacity > 0 && n <= |SMALL_PRIMES|
    ensures BestSeparation(capacity, n) <= Max(1, Separation(BestStride(capacity, n), capacity))
    ensures forall i :: 0 <= i < n ==> NoFurther(i, capacity, BestStride(capacity, n))
    ensures BestSeparation(capacity, n) == 1 ||
            BestSeparation(capacity, n) == Separation(BestStride(capacity, n), capacity)
    ensures BestSeparation(capacity, n) >= 1
    ensures forall i :: 0 <= i < n && Eligible(SMALL_PRIMES[i], capacity) ==>
              Separation(SMALL_PRIMES[i], capacity) <= BestSeparation(capacity, n)
  {
    if n > 0 {
      SpreadsBest(capacity, n - 1);
    }
  }

  // ---- coprimality ---------------------------------------------------------

  lemma SmallPrimesArePrime(p: nat)
    requires p in SMALL_PRIMES
    ensures Prime(p)
  {
    forall d: nat | 1 < d < p ensures p % d != 0 {
      NoSmallDivisor(p, d);
    }
  }

  lemma NoSmallDivisor(p: nat, d: nat)
    requires p in SMALL_PRIMES && 1 < d < p
    ensures p % d != 0
  {
    assert p == 2 || p == 3 || p == 5 || p == 7 || p == 11 || p == 13 || p == 17 || p == 19 || p == 23;
    assert d == 2 || d == 3 || d == 4 || d == 5 || d == 6 || d == 7 || d == 8 || d == 9 || d == 10 || d == 11 ||
           d == 12 || d == 13 || d == 14 || d == 15 || d == 16 || d == 17 || d == 18 || d == 19 || d == 20 ||
           d == 21 || d == 22;
  }

  /** Euclid's lemma, by descending on the remainder of p by a. */
  lemma {:induction false} Euclid(p: nat, a: nat, m: nat)
    requires Prime(p) && 0 < a < p && (a * m) % p == 0
    ensures m % p == 0
    decreases a
  {
    if a > 1 {
      var q, r := p / a, p % a;
      var n := (a * m) / p;
      assert r * m == p * (m - q * n) by {
        assert r * m == p * m - q * (a * m) by {
          assert (q * a + r) * m == q * (a * m) + r * m;
        }
        assert q * (a * m) == q * (p * n) == p * (q * n);
        assert p * (m - q * n) == p * m - p * (q * n);
      }
      MultipleMod(p, m - q * n);
      Euclid(p, r, m);
    }
  }

  /** Whatever the capacity, the chosen stride shares no factor with it. */
  lemma StrideIsCoprime(capacity: nat)
    requires capacity > 0
    ensures Coprime(StrideOf(capacity), capacity)
  {
    var s := StrideOf(capacity);
    forall d: nat | d > 1 && s % d == 0 ensures capacity % d != 0 {
      assert s != 1;
      SmallPrimesArePrime(s);
      assert d == s;
    }
  }

  lemma StrideCases(capacity: nat)
    requires capacity > 0
    ensures StrideOf(capacity) == 1 || (Prime(StrideOf(capacity)) && capacity % StrideOf(capacity) != 0)
  {
    var p := StrideOf(capacity);
    if p != 1 {
      SmallPrimesArePrime(p);
    }
  }

  /** A multiple of the stride that wraps to slot zero comes from a whole number of laps. */
  lemma StrideCancels(capacity: nat, x: nat)
    requires capacity > 0 && (x * StrideOf(capacity)) % capacity == 0
    ensures x % capacity == 0
  {
    StrideCases(capacity);
    CoprimeCancels(StrideOf(capacity), capacity, x);
  }

  lemma CoprimeCancels(p: nat, capacity: nat, x: nat)
    requires capacity > 0 && (x * p) % capacity == 0
    requires p == 1 || (Prime(p) && capacity % p != 0)
    ensures x % capacity == 0
  {
    if p != 1 {
      PrimeCancels(p, capacity, x, (x * p) / capacity);
    }
  }

  lemma PrimeCancels(p: nat, capacity: nat, x: nat, m: nat)
    requires Prime(p) && capacity % p != 0 && x * p == capacity * m
    ensures x % capacity == 0
  {
    var a, c := capacity % p, capacity / p;
    RestTimes(p, capacity, x, m, a, c);
    MultipleMod(p, x - c * m);
    Euclid(p, a, m);
    var laps := m / p;
    WholeLaps(p, capacity, x, m, laps);
    Cancel(p, x, capacity * laps);
    MultipleMod(capacity, laps);
  }

  lemma RestTimes(p: nat, capacity: nat, x: nat, m: nat, a: nat, c: nat)
    requires capacity == p * c + a && x * p == capacity * m
    ensures a * m == p * (x - c * m)
  {
    assert (p * c + a) * m == p * (c * m) + a * m;
    assert p * (x - c * m) == p * x - p * (c * m);
  }

  lemma WholeLaps(p: nat, capacity: nat, x: nat, m: nat, laps: nat)
    requires x * p == capacity * m && m == p * laps
    ensures p * x == p * (capacity * laps)
  {
    assert capacity * (p * laps) == p * (capacity * laps);
  }

  // ---- slots ---------------------------------------------------------------

  /** `idx` without the constant padding in front of the array. */
  function Idx(ticket: nat, cap: nat, stride: nat): (slot: nat)
    requires cap > 0
    ensures slot < cap
  {
    (ticket * stride) % cap
  }

  function Turn(ticket: nat, cap: nat): (turn: nat)
    requires cap > 0
  {
    ticket / cap
  }

  /** The first ticket uses the first slot, and each next ticket the slot one stride further around the array. */
  lemma AdjacentTicketsAreAStrideApart(ticket: nat, cap: nat, stride: nat)
    requires cap > 0
    ensures Idx(0, cap, stride) == 0
    ensures Idx(ticket + 1, cap, stride) == (Idx(ticket, cap, stride) + stride) % cap
  {
    var x := ticket * stride;
    assert (ticket + 1) * stride == x + stride;
    assert x + stride == x % cap + stride + cap * (x / cap);
    ShiftDivMod(x % cap + stride, cap, x / cap);
    DivModUnique(0, cap, 0, 0);
  }

  lemma SlotDifference(cap: nat, t1: nat, t2: nat)
    requires cap > 0 && t1 <= t2
    requires Idx(t1, cap, StrideOf(cap)) == Idx(t2, cap, StrideOf(cap))
    ensures (t2 - t1) % cap == 0
  {
    var s := StrideOf(cap);
    assert (t2 - t1) * s == t2 * s - t1 * s;
    SameRemainder(t1 * s, t2 * s, cap);
    StrideCancels(cap, t2 - t1);
  }

  /** Any `cap` consecutive tickets use `cap` different slots. */
  lemma ConsecutiveTicketsUseDistinctSlots(cap: nat, t1: nat, t2: nat)
    requires cap > 0 && t1 < t2 < t1 + cap
    ensures Idx(t1, cap, StrideOf(cap)) != Idx(t2, cap, StrideOf(cap))
  {
    DivModUnique(t2 - t1, cap, 0, t2 - t1);
    if Idx(t1, cap, StrideOf(cap)) == Idx(t2, cap, StrideOf(cap)) {
      SlotDifference(cap, t1, t2);
      assert false;
    }
  }

  /** The slot and the turn together determine the ticket. */
  lemma SlotAndTurnDetermineTicket(cap: nat, t1: nat, t2: nat)
    requires cap > 0
    requires Idx(t1, cap, StrideOf(cap)) == Idx(t2, cap, StrideOf(cap))
    requires Turn(t1, cap) == Turn(t2, cap)
    ensures t1 == t2
  {
    if t1 <= t2 {
      SlotDifference(cap, t1, t2);
      SameLap(cap, t1, t2);
    } else {
      SlotDifference(cap, t2, t1);
      SameLap(cap, t2, t1);
    }
  }

  lemma SameLap(cap: nat, t1: nat, t2: nat)
    requires cap > 0 && t1 <= t2 && t1 / cap == t2 / cap && (t2 - t1) % cap == 0
    ensures t1 == t2
  {
    MultipleBound(cap, (t2 - t1) / cap);
  }

  /** A lap later, the same slot is used with the next turn. */
  lemma NextLap(ticket: nat, cap: nat, stride: nat)
    requires cap > 0
    ensures Idx(ticket + cap, cap, stride) == Idx(ticket, cap, stride)
    ensures Turn(ticket + cap, cap) == Turn(ticket, cap) + 1
  {
    assert (ticket + cap) * stride == ticket * stride + cap * stride;
    ShiftDivMod(ticket * stride, cap, stride);
    ShiftDivMod(ticket, cap, 1);
  }
}
