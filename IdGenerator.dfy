/** The process-wide id counter (util/IdGenerator.java): an `AtomicLong` that starts at 0 and is
    advanced by `getAndIncrement` on every `createID`. */
module IdGenerator {
  import opened Entities

  const TWO_64: int := 0x1_0000_0000_0000_0000

  /** The counter's value after one `getAndIncrement`: the successor modulo 2^64 in two's
      complement, so `LONG_MAX` is followed by `LONG_MIN`. */
  function Increment(c: Long): (r: Long)
    ensures r == LONG_MIN + (c - LONG_MIN + 1) % TWO_64
    ensures c < LONG_MAX ==> r == c + 1
  {
    if c == LONG_MAX then LONG_MIN else c + 1
  }

  /** The signed 64-bit value congruent to `k` modulo 2^64. */
  function AsLong(k: int): (r: Long)
    ensures (r - k) % TWO_64 == 0
  {
    LONG_MIN + (k - LONG_MIN) % TWO_64
  }

  /** The counter after `k` calls of `createID` in a fresh process; it is also the id the
      (k+1)-th call returns. */
  function CounterAfter(k: nat): Long
  {
    if k == 0 then 0 else Increment(CounterAfter(k - 1))
  }

  /** Until the counter reaches `LONG_MAX`, the k-th call returns k - 1. */
  lemma {:induction false} CounterAfterIsCount(k: nat)
    requires k <= LONG_MAX
    ensures CounterAfter(k) == k
  {
    if k > 0 {
      CounterAfterIsCount(k - 1);
    }
  }

  /** Ids handed out before the counter wraps are strictly increasing. */
  lemma IdsIncrease(i: nat, j: nat)
    requires i < j <= LONG_MAX
    ensures CounterAfter(i) < CounterAfter(j)
  {
    CounterAfterIsCount(i);
    CounterAfterIsCount(j);
  }

  /** After any number of calls, the counter is the call count wrapped into the `long` range. */
  lemma {:induction false} CounterAfterWraps(k: nat)
    ensures CounterAfter(k) == AsLong(k)
  {
    if k > 0 {
      CounterAfterWraps(k - 1);
      var a := k - 1 - LONG_MIN;
      assert CounterAfter(k - 1) - LONG_MIN + 1 == a % TWO_64 + 1;
      ModSucc(a);
    }
  }

  lemma ModSucc(a: int)
    ensures (a % TWO_64 + 1) % TWO_64 == (a + 1) % TWO_64
  {
  }

  /** Any 2^64 consecutive calls return pairwise distinct ids; the first repeat is the
      (2^64+1)-th call. */
  lemma IdsDistinct(i: nat, j: nat)
    requires i < j < i + TWO_64
    ensures CounterAfter(i) != CounterAfter(j)
  {
    CounterAfterWraps(i);
    CounterAfterWraps(j);
    var q, p := (i - LONG_MIN) / TWO_64, (j - LONG_MIN) / TWO_64;
    assert i - LONG_MIN == q * TWO_64 + (i - LONG_MIN) % TWO_64;
    assert j - LONG_MIN == p * TWO_64 + (j - LONG_MIN) % TWO_64;
    assert AsLong(i) != AsLong(j);
  }

  /** The counter is not reset: the first id returned after `LONG_MAX` is `LONG_MIN`. */
  lemma WrapsAfterMax()
    ensures CounterAfter(LONG_MAX + 1) == LONG_MIN
  {
    CounterAfterIsCount(LONG_MAX);
  }

  /** The static `idCounter`. The ghost `calls` counts the `createID` calls made so far. */
  class IdGenerator {
    var idCounter: Long
    ghost var calls: nat

    ghost predicate Valid()
      reads this
    {
      idCounter == CounterAfter(calls)
    }

    /** `new AtomicLong()`: the counter starts at 0. */
    constructor ()
      ensures Valid() && calls == 0 && idCounter == 0
    {
      idCounter := 0;
      calls := 0;
    }

    /** `createID`: returns the current value and advances the counter by one. */
    method CreateID() returns (id: Long)
      requires Valid()
      modifies this
      ensures Valid() && calls == old(calls) + 1
      ensures id == old(idCounter) && idCounter == Increment(old(idCounter))
    {
      id := idCounter;
      idCounter := Increment(idCounter);
      calls := calls + 1;
    }
  }
}
