/** Thread ids: a shared 32-bit counter, truncated to 16 bits when a thread keeps its value. */
module ThreadIds {
  import opened Bits
  import opened RwLock
  import opened RwLockProofs
  import opened RwLockTheorems
  import opened RwLockLimits

  /** The id kept by the k-th thread to initialise itself, counting from zero. */
  function InitialisedId(k: nat): uint16 {
    ((1 + k) % 0x1_0000_0000) % 0x1_0000
  }

  function InitialisedIds(n: nat): seq<uint16> {
    seq(n, k requires 0 <= k => InitialisedId(k))
  }

  class ThreadIdSource {
    var sThreadId: uint32
    ghost var initialised: nat

    ghost predicate Valid()
      reads this
    {
      sThreadId == (1 + initialised) % 0x1_0000_0000
    }

    constructor ()
      ensures Valid() && initialised == 0
    {
      sThreadId := 1;
      initialised := 0;
    }

    method InitLocalThread() returns (lThreadId: uint16)
      requires Valid()
      modifies this
      ensures Valid() && initialised == old(initialised) + 1
      ensures lThreadId == InitialisedId(old(initialised))
    {
      lThreadId := sThreadId % 0x1_0000;
      sThreadId := (sThreadId + 1) % 0x1_0000_0000;
      initialised := initialised + 1;
    }
  }

  lemma {:induction false} Remainder(x: nat, q: nat, w: nat)
    requires x == 0x1_0000 * q + w && w < 0x1_0000
    ensures x % 0x1_0000 == w
  {
  }

  lemma {:induction false} NextRemainder(x: nat)
    ensures (x + 1) % 0x1_0000 == (x % 0x1_0000 + 1) % 0x1_0000
  {
    var q, w := x / 0x1_0000, x % 0x1_0000;
    if w == 0xffff {
      Remainder(x + 1, q + 1, 0);
    } else {
      Remainder(x + 1, q, w + 1);
    }
  }

  lemma {:induction false} Truncates(k: nat)
    ensures InitialisedId(k) == (1 + k) % 0x1_0000
  {
    var x := 1 + k;
    var high, low := x / 0x1_0000_0000, x % 0x1_0000_0000;
    Remainder(x, 0x1_0000 * high + low / 0x1_0000, low % 0x1_0000);
  }

  /** The first thread gets id 1, and each later one the next id, modulo 2^16. */
  lemma {:induction false} IdsCountUp(n: nat, k: nat)
    requires k < n
    ensures InitialisedIds(n)[0] == 1
    ensures k + 1 < n ==> InitialisedIds(n)[k + 1] as int == (InitialisedIds(n)[k] as int + 1) % 0x1_0000
  {
    Truncates(k);
    Truncates(k + 1);
    NextRemainder(1 + k);
  }

  /** The first 65535 threads get non-zero, pairwise distinct ids; the next one gets id 0. */
  lemma {:induction false} IdsDistinctIff(n: nat)
    ensures DistinctNonZero(InitialisedIds(n)) <==> n <= 0xffff
  {
    var ids := InitialisedIds(n);
    if n <= 0xffff {
      assert forall k | 0 <= k < n :: ids[k] == k + 1;
    } else {
      assert ids[0xffff] == 0;
    }
  }

  /** Threads numbered by the counter exclude one another in every run within the limits iff there
      are at most 65535 of them and neither counter of the lock can overflow. */
  lemma {:induction false} ExclusionIff(n: nat, limits: Limits)
    requires n >= 2 && limits.maxCount >= 2
    ensures (forall s | ReachableWithin(limits, InitialisedIds(n), s) :: Exclusive(Abstract(s)))
            <==> n <= 0xffff && limits.maxReads <= 0xffff && limits.maxCount <= 0x1_0000
  {
    var ids := InitialisedIds(n);
    IdsDistinctIff(n);
    if n > 0xffff {
      var i, j := NotDistinctNonZero(ids);
      var s := BadIdsBreakExclusion(limits, ids, i, j);
    } else if limits.maxReads > 0xffff {
      assert ids[0] == 1 && ids[1] == 2;
      var s := CarriedReadsBreakExclusion(limits, ids, 0, 1);
    } else {
      ExclusionIffCountFits(ids, limits);
    }
  }
}
