/** Where the guarantees of the packed-word lock end: its scope guards, and its counters' widths. */
module RwLockLimits {
  import opened Bits
  import opened RwLock
  import opened RwLockProofs
  import opened RwLockTheorems

  // ---- The scope guards ----

  /** The scope guards of the lock: constructing either one calls TryReadLock. */
  datatype Guard = WriteLockGuard | ReadLockGuard
  {
    function Constructor(): Call { LockRead }

    function Destructor(): Call { UnlockRead }
  }

  /** No id in the word, the read count right, and room for more. */
  ghost predicate Unowned(limits: Limits, ids: seq<uint16>, s: State) {
    && ReachableWithin(limits, ids, s) && Within(limits, s)
    && Owner(s.flag) == 0 && Readers(s.flag) == TotalReads(s)
  }

  /** A step that only moves a thread from one position to another. */
  lemma {:induction false} UnownedMove(limits: Limits, ids: seq<uint16>, s: State, a: Action, t: Thread)
    requires Unowned(limits, ids, s) && Enabled(s, a) && t.held == s.threads[a.i].held
    requires Apply(s, a) == s.(threads := s.threads[a.i := t])
    ensures Unowned(limits, ids, Apply(s, a))
    ensures TotalReads(Apply(s, a)) == TotalReads(s) && TotalWrites(Apply(s, a)) == TotalWrites(s)
  {
    ReachableMove(limits, ids, s, a, t);
  }

  lemma {:induction false} UnownedRead(limits: Limits, ids: seq<uint16>, s: State, i: nat)
    requires Unowned(limits, ids, s) && i < |s.threads| && s.threads[i].pc == ReadCas(s.flag) && s.threads[i].held == []
    requires TotalReads(s) < limits.maxReads && TotalReads(s) < 0xffff
    ensures var s' := Access(s, i);
            && Unowned(limits, ids, s') && s'.threads == s.threads[i := s.threads[i].(pc := ReadCount, held := [Read])]
            && TotalWrites(s') == TotalWrites(s) && TotalReads(s') == TotalReads(s) + 1
            && s'.granted == s.granted && s'.count == s.count
  {
    var t := s.threads[i].(pc := ReadCount, held := [Read]);
    CountPush([], Read, Write);
    CountPush([], Read, Read);
    assert [] + [Read] == [Read];
    WordUp(s.flag);
    ReachableMove(limits, ids, s, Accesses(i), t);
  }

  lemma {:induction false} UnownedCount(limits: Limits, ids: seq<uint16>, s: State, i: nat)
    requires Unowned(limits, ids, s) && i < |s.threads| && s.threads[i].pc == ReadCount && s.threads[i].held == [Read]
    ensures var s' := Access(s, i);
            && Unowned(limits, ids, s') && s' == s.(threads := s.threads[i := s.threads[i].(pc := ReadStore(s.count))])
            && TotalWrites(s') == TotalWrites(s) && TotalReads(s') == TotalReads(s)
  {
    UnownedMove(limits, ids, s, Accesses(i), s.threads[i].(pc := ReadStore(s.count)));
  }

  lemma {:induction false} UnownedGrant(limits: Limits, ids: seq<uint16>, s: State, i: nat)
    requires Unowned(limits, ids, s) && i < |s.threads| && s.threads[i].pc.ReadStore? && s.threads[i].held == [Read]
    requires TotalWrites(s) + s.granted < limits.maxCount
    ensures var s' := Access(s, i);
            && Unowned(limits, ids, s') && s'.threads == s.threads[i := s.threads[i].(pc := Idle)]
            && TotalWrites(s') == TotalWrites(s) && TotalReads(s') == TotalReads(s)
            && s'.granted == s.granted + 1 && s'.count == Up16(s.threads[i].pc.loaded)
  {
    ReachableMove(limits, ids, s, Accesses(i), s.threads[i].(pc := Idle));
  }

  lemma {:induction false} EntersReadLock(limits: Limits, ids: seq<uint16>, s: State, i: nat)
    requires Unowned(limits, ids, s) && i < |s.threads| && s.threads[i] == IdleThread(s.threads[i].id, [])
    ensures var s' := Invoke(s, i, LockRead);
            && Unowned(limits, ids, s') && s'.threads[i] == Thread(s.threads[i].id, ReadLoad, [], [Read])
            && TotalWrites(s') == TotalWrites(s) && TotalReads(s') == TotalReads(s)
  {
    assert [] + [Read] == [Read];
    UnownedMove(limits, ids, s, Calls(i, LockRead), Thread(s.threads[i].id, ReadLoad, [], [Read]));
  }

  lemma {:induction false} LeavesReadLoad(limits: Limits, ids: seq<uint16>, s: State, i: nat)
    requires Unowned(limits, ids, s) && i < |s.threads| && s.threads[i].pc == ReadLoad && s.threads[i].id != 0
    ensures var s' := Access(s, i);
            && Unowned(limits, ids, s') && s' == s.(threads := s.threads[i := s.threads[i].(pc := ReadSpin)])
            && TotalWrites(s') == TotalWrites(s) && TotalReads(s') == TotalReads(s)
  {
    UnownedMove(limits, ids, s, Accesses(i), s.threads[i].(pc := ReadSpin));
  }

  lemma {:induction false} LeavesReadSpin(limits: Limits, ids: seq<uint16>, s: State, i: nat)
    requires Unowned(limits, ids, s) && i < |s.threads| && s.threads[i].pc == ReadSpin
    ensures var s' := Access(s, i);
            && Unowned(limits, ids, s') && s' == s.(threads := s.threads[i := s.threads[i].(pc := ReadCas(s.flag))])
            && TotalWrites(s') == TotalWrites(s) && TotalReads(s') == TotalReads(s)
  {
    UnownedMove(limits, ids, s, Accesses(i), s.threads[i].(pc := ReadCas(s.flag)));
  }

  lemma {:induction false} ReachesReadCas(limits: Limits, ids: seq<uint16>, s: State, i: nat) returns (s': State)
    requires Unowned(limits, ids, s) && i < |s.threads| && s.threads[i] == IdleThread(s.threads[i].id, [])
    requires s.threads[i].id != 0
    ensures Unowned(limits, ids, s') && s'.flag == s.flag && s'.granted == s.granted && s'.count == s.count
    ensures s'.threads == s.threads[i := Thread(s.threads[i].id, ReadCas(s.flag), [], [Read])]
    ensures TotalWrites(s') == TotalWrites(s) && TotalReads(s') == TotalReads(s)
  {
    var s1 := Invoke(s, i, LockRead);
    EntersReadLock(limits, ids, s, i);
    var s2 := s1.(threads := s1.threads[i := s1.threads[i].(pc := ReadSpin)]);
    LeavesReadLoad(limits, ids, s1, i);
    s' := s2.(threads := s2.threads[i := s2.threads[i].(pc := ReadCas(s.flag))]);
    LeavesReadSpin(limits, ids, s2, i);
  }

  /** A thread takes a shared read and has loaded LockCount to increment it. */
  lemma {:induction false} TakesRead(limits: Limits, ids: seq<uint16>, s: State, i: nat) returns (s': State)
    requires Unowned(limits, ids, s) && i < |s.threads| && s.threads[i] == IdleThread(s.threads[i].id, [])
    requires s.threads[i].id != 0 && TotalReads(s) < 0xffff && TotalReads(s) < limits.maxReads
    ensures Unowned(limits, ids, s') && s'.granted == s.granted && s'.count == s.count
    ensures s'.threads == s.threads[i := Thread(s.threads[i].id, ReadStore(s.count), [Read], [Read])]
    ensures TotalWrites(s') == TotalWrites(s) && TotalReads(s') == TotalReads(s) + 1
  {
    var s1 := ReachesReadCas(limits, ids, s, i);
    UnownedRead(limits, ids, s1, i);
    var s2 := Access(s1, i);
    UnownedCount(limits, ids, s2, i);
    s' := Access(s2, i);
    assert s'.threads == s.threads[i := s'.threads[i]];
  }

  lemma {:induction false} GetsReadLock(limits: Limits, ids: seq<uint16>, s: State, i: nat) returns (s': State)
    requires Unowned(limits, ids, s) && i < |s.threads| && s.threads[i] == IdleThread(s.threads[i].id, [])
    requires s.threads[i].id != 0 && TotalReads(s) < 0xffff
    requires TotalWrites(s) + s.granted < limits.maxCount && TotalReads(s) < limits.maxReads
    ensures Unowned(limits, ids, s') && s'.threads == s.threads[i := IdleThread(s.threads[i].id, [Read])]
    ensures TotalWrites(s') == TotalWrites(s) && TotalReads(s') == TotalReads(s) + 1
    ensures s'.granted == s.granted + 1 && s'.count == Up16(s.count)
  {
    var s1 := TakesRead(limits, ids, s, i);
    UnownedGrant(limits, ids, s1, i);
    s' := Access(s1, i);
    assert s'.threads == s.threads[i := s'.threads[i]];
  }

  /** Two readers may count at once and lose an increment: LockCount does not count the reads
      granted, it only shows whether there was one. */
  lemma {:induction false} ReadersLoseIncrement(ids: seq<uint16>, i: nat, j: nat) returns (s: State)
    requires DistinctNonZero(ids) && i < |ids| && j < |ids| && i != j
    ensures Reachable(ids, s) && s.granted == 2 && s.count == 1
  {
    StartReachable(CAPACITY, ids);
    var s1 := TakesRead(CAPACITY, ids, Start(ids), i);
    var s2 := GetsReadLock(CAPACITY, ids, s1, j);
    UnownedGrant(CAPACITY, ids, s2, i);
    s := Access(s2, i);
  }

  /** A WriteLockGuard excludes nobody: whatever two guards two threads construct, some run has
      both threads past their constructors at once. */
  lemma {:induction false} GuardsOverlap(ids: seq<uint16>, i: nat, j: nat, g: Guard, h: Guard) returns (s: State)
    requires DistinctNonZero(ids) && i < |ids| && j < |ids| && i != j
    ensures Reachable(ids, s) && i < |s.threads| && j < |s.threads|
    ensures s.threads[i].held == Entered(Start(ids).threads[i], g.Constructor()).target
    ensures s.threads[j].held == Entered(Start(ids).threads[j], h.Constructor()).target
    ensures MayCall(s.threads[i], g.Destructor()) && MayCall(s.threads[j], h.Destructor())
  {
    StartReachable(CAPACITY, ids);
    var s1 := GetsReadLock(CAPACITY, ids, Start(ids), i);
    s := GetsReadLock(CAPACITY, ids, s1, j);
  }

  // ---- The widths of the counters ----

  lemma {:induction false} UnownedRelease(limits: Limits, ids: seq<uint16>, s: State, i: nat)
    requires Unowned(limits, ids, s) && i < |s.threads| && s.threads[i].pc == ReadRelease && s.threads[i].held == [Read]
    requires TotalReads(s) == 1
    ensures var s' := Access(s, i);
            && Unowned(limits, ids, s') && s'.threads == s.threads[i := s.threads[i].(pc := Idle, held := [])]
            && TotalWrites(s') == TotalWrites(s) && TotalReads(s') == 0
            && s'.granted == s.granted && s'.count == s.count
  {
    var t := s.threads[i].(pc := Idle, held := []);
    CountPush([], Read, Write);
    CountPush([], Read, Read);
    assert [] + [Read] == [Read];
    WordDown(s.flag);
    ReachableMove(limits, ids, s, Accesses(i), t);
  }

  lemma {:induction false} ReleasesReadLock(limits: Limits, ids: seq<uint16>, s: State, i: nat) returns (s': State)
    requires Unowned(limits, ids, s) && i < |s.threads| && s.threads[i] == IdleThread(s.threads[i].id, [Read])
    requires TotalReads(s) == 1
    ensures Unowned(limits, ids, s') && s'.threads == s.threads[i := IdleThread(s.threads[i].id, [])]
    ensures TotalWrites(s') == TotalWrites(s) && TotalReads(s') == 0
    ensures s'.granted == s.granted && s'.count == s.count
  {
    var t := Thread(s.threads[i].id, ReadRelease, [Read], []);
    assert Entered(s.threads[i], UnlockRead) == t;
    UnownedMove(limits, ids, s, Calls(i, UnlockRead), t);
    var s1 := Invoke(s, i, UnlockRead);
    UnownedRelease(limits, ids, s1, i);
    s' := Access(s1, i);
  }

  /** A read taken and released leaves nothing behind but LockCount. */
  lemma {:induction false} ReadCycle(limits: Limits, ids: seq<uint16>, s: State, i: nat) returns (s': State)
    requires Unowned(limits, ids, s) && i < |s.threads| && s.threads[i] == IdleThread(s.threads[i].id, [])
    requires s.threads[i].id != 0 && TotalWrites(s) == TotalReads(s) == 0
    requires limits.maxReads >= 1 && s.granted < limits.maxCount
    ensures Unowned(limits, ids, s') && s'.threads == s.threads && s'.granted == s.granted + 1
    ensures s'.count == Up16(s.count)
    ensures TotalWrites(s') == TotalReads(s') == 0
  {
    var s1 := GetsReadLock(limits, ids, s, i);
    s' := ReleasesReadLock(limits, ids, s1, i);
    assert s'.threads == s.threads;
  }

  lemma {:induction false} GrantReads(limits: Limits, ids: seq<uint16>, i: nat, k: nat) returns (s: State)
    requires i < |ids| && ids[i] != 0 && k <= limits.maxCount && (k == 0 || limits.maxReads > 0)
    ensures Unowned(limits, ids, s) && s.threads == Start(ids).threads && s.granted == k && s.count == Wrap16(k)
    ensures TotalWrites(s) == TotalReads(s) == 0
  {
    if k == 0 {
      StartReachable(limits, ids);
      s := Start(ids);
    } else {
      var s1 := GrantReads(limits, ids, i, k - 1);
      s := ReadCycle(limits, ids, s1, i);
    }
  }

  lemma {:induction false} StartsUnlock(limits: Limits, ids: seq<uint16>, s: State, i: nat, held: seq<Kind>)
    returns (s': State)
    requires ReachableWithin(limits, ids, s) && Within(limits, s)
    requires i < |s.threads| && IdleWith(s.threads[i], held + [Write])
    ensures ReachableWithin(limits, ids, s')
    ensures s' == s.(threads := s.threads[i := Thread(s.threads[i].id, UnlockDecrement, held + [Write], held)])
    ensures TotalReads(s') == TotalReads(s) && TotalWrites(s') == TotalWrites(s)
  {
    assert Pop(held + [Write]) == held;
    var s1 := Invoke(s, i, UnlockWrite);
    ReachableMove(limits, ids, s, Calls(i, UnlockWrite), s1.threads[i]);
    s' := Access(s1, i);
    ReachableMove(limits, ids, s1, Accesses(i), s'.threads[i]);
    UpdateTwice(s.threads, i, s1.threads[i], s'.threads[i]);
  }

  lemma {:induction false} DecrementsLast(limits: Limits, ids: seq<uint16>, s: State, i: nat, held: seq<Kind>)
    returns (s': State)
    requires ReachableWithin(limits, ids, s) && Within(limits, s) && s.count == 1
    requires i < |s.threads| && IdleWith(s.threads[i], held + [Write])
    ensures ReachableWithin(limits, ids, s') && s'.granted == s.granted
    ensures s'.threads == s.threads[i := Thread(s.threads[i].id, UnlockStore, held, held)]
    ensures TotalReads(s') == TotalReads(s) && TotalWrites(s') == TotalWrites(s) - 1
  {
    var s1 := StartsUnlock(limits, ids, s, i, held);
    CountPush(held, Write, Write);
    CountPush(held, Write, Read);
    assert Pop(held + [Write]) == held;
    var t := Thread(s.threads[i].id, UnlockStore, held, held);
    s' := Access(s1, i);
    assert s'.threads == s1.threads[i := t];
    ReachableMove(limits, ids, s1, Accesses(i), t);
  }

  /** An unlock that finds LockCount at one empties the word, whatever the thread still holds. */
  lemma {:induction false} UnlockEmpties(limits: Limits, ids: seq<uint16>, s: State, i: nat, held: seq<Kind>)
    returns (s': State)
    requires ReachableWithin(limits, ids, s) && Within(limits, s) && s.count == 1
    requires i < |s.threads| && IdleWith(s.threads[i], held + [Write])
    ensures ReachableWithin(limits, ids, s') && s'.flag == EMPTY && s'.granted == s.granted
    ensures s'.threads == s.threads[i := IdleThread(s.threads[i].id, held)]
    ensures TotalReads(s') == TotalReads(s) && TotalWrites(s') == TotalWrites(s) - 1
  {
    var s1 := DecrementsLast(limits, ids, s, i, held);
    s' := Access(s1, i);
    ReachableMove(limits, ids, s1, Accesses(i), s1.threads[i].(pc := Idle));
    UpdateTwice(s.threads, i, s1.threads[i], s'.threads[i]);
  }

  /** The holds of a thread that nested `w` write locks, then `r` read locks. */
  function Nest(w: nat, r: nat): seq<Kind> {
    seq(w, _ => Write) + seq(r, _ => Read)
  }

  lemma {:induction false} NestPush(w: nat, r: nat)
    ensures Nest(w, 0) + [Write] == Nest(w + 1, 0)
    ensures Nest(w, r) + [Read] == Nest(w, r + 1)
  {
  }

  lemma {:induction false} NestHoldsWrite(w: nat, r: nat)
    requires w > 0
    ensures Count(Nest(w, r), Write) >= 1
  {
    assert Nest(w, r)[0] == Write;
    BottomCounts(Nest(w, r));
  }

  lemma {:induction false} WrapNext(x: nat, k: nat)
    requires x < 0x1_0000 && k > 0
    ensures Up16(Wrap16(x + (k - 1))) == Wrap16(x + k)
  {
  }

  lemma {:induction false} UpdateTwice<T>(xs: seq<T>, i: nat, x: T, y: T)
    requires i < |xs|
    ensures xs[i := x][i := y] == xs[i := y]
  {
  }

  /** From `s` to `s'`, thread `i` has nested `w` write locks. */
  ghost predicate NestedWrites(s: State, i: nat, w: nat, s': State)
    requires i < |s.threads|
  {
    && s'.threads == s.threads[i := IdleThread(s.threads[i].id, Nest(w, 0))]
    && s'.granted == s.granted && s'.count == Wrap16(s.count + w)
    && s'.flag == (if w == 0 then EMPTY else s.threads[i].id * 0x1_0000)
    && TotalReads(s') == TotalReads(s) && TotalWrites(s') == TotalWrites(s) + w
  }

  lemma {:induction false} NestsNone(s: State, i: nat, t: Thread)
    requires i < |s.threads| && t == s.threads[i] && IdleWith(t, [])
    ensures t == IdleThread(t.id, Nest(0, 0)) && s.threads[i := t] == s.threads
  {
    assert Nest(0, 0) == [];
  }

  lemma {:induction false} NestsOneMore(s: State, i: nat, w: nat, s1: State, s': State)
    requires i < |s.threads| && NestedWrites(s, i, w, s1) && s.flag == EMPTY
    requires s'.threads == s1.threads[i := IdleThread(s1.threads[i].id, Nest(w, 0) + [Write])]
    requires s'.granted == s1.granted && s'.count == Up16(s1.count)
    requires s'.flag == if Owner(s1.flag) == s1.threads[i].id then s1.flag else s1.threads[i].id * 0x1_0000
    requires TotalWrites(s') == TotalWrites(s1) + 1 && TotalReads(s') == TotalReads(s1)
    ensures NestedWrites(s, i, w + 1, s')
  {
    NestPush(w, 0);
    WordOfId(s.threads[i].id);
    WrapNext(s.count, w + 1);
  }

  lemma {:induction false} NestWrites(limits: Limits, ids: seq<uint16>, s: State, i: nat, w: nat) returns (s': State)
    requires ReachableWithin(limits, ids, s) && s.flag == EMPTY && i < |s.threads| && IdleWith(s.threads[i], [])
    requires TotalReads(s) <= limits.maxReads && TotalWrites(s) + s.granted + w <= limits.maxCount
    ensures ReachableWithin(limits, ids, s') && NestedWrites(s, i, w, s')
  {
    if w == 0 {
      NestsNone(s, i, s.threads[i]);
      s' := s;
    } else {
      var s1 := NestWrites(limits, ids, s, i, w - 1);
      WordOfId(s.threads[i].id);
      s' := GetsWriteLock(limits, ids, s1, i, Nest(w - 1, 0));
      NestsOneMore(s, i, w - 1, s1, s');
    }
  }

  lemma {:induction false} OneLeft(g: nat)
    requires g <= 0xffff
    ensures Wrap16(Wrap16(g) + (0x1_0001 - g)) == 1
  {
  }

  /** With `g` reads granted and released, a thread nests write locks up to a count of 2^16 + 1. */
  lemma {:induction false} NestsPastWidth(limits: Limits, ids: seq<uint16>, i: nat, g: nat) returns (s: State)
    requires i < |ids| && ids[i] != 0
    requires g <= 0xffff && (g == 0 || limits.maxReads > 0) && limits.maxCount > 0x1_0000
    ensures ReachableWithin(limits, ids, s) && s.granted == g && s.count == 1
    ensures s.threads == Start(ids).threads[i := IdleThread(ids[i], Nest(0x1_0001 - g, 0))]
    ensures TotalReads(s) == 0 && TotalWrites(s) == 0x1_0001 - g
  {
    var s1 := GrantReads(limits, ids, i, g);
    s := NestWrites(limits, ids, s1, i, 0x1_0001 - g);
    OneLeft(g);
  }

  /** Its first unlock then empties the word under all the others. */
  lemma {:induction false} NestedUnlockEmpties(limits: Limits, ids: seq<uint16>, i: nat, g: nat) returns (s: State)
    requires i < |ids| && ids[i] != 0
    requires g <= 0xffff && (g == 0 || limits.maxReads > 0) && limits.maxCount > 0x1_0000
    ensures ReachableWithin(limits, ids, s) && s.granted == g && s.flag == EMPTY
    ensures s.threads == Start(ids).threads[i := IdleThread(ids[i], Nest(0x1_0000 - g, 0))]
    ensures TotalReads(s) == 0 && TotalWrites(s) == 0x1_0000 - g
  {
    var s1 := NestsPastWidth(limits, ids, i, g);
    var held := Nest(0x1_0000 - g, 0);
    NestPush(0x1_0000 - g, 0);
    assert s1.threads[i] == IdleThread(ids[i], held + [Write]);
    s := UnlockEmpties(limits, ids, s1, i, held);
    UpdateTwice(Start(ids).threads, i, s1.threads[i], s.threads[i]);
  }

  /** LockCount wraps: beyond a count of 2^16, however many of it are granted shared reads, two
      threads can hold the write lock at once. */
  lemma {:induction false} WrappedCountBreaksExclusion(limits: Limits, ids: seq<uint16>, i: nat, j: nat, g: nat)
    returns (s: State)
    requires i < |ids| && j < |ids| && i != j && ids[i] != 0
    requires g <= 0xffff && (g == 0 || limits.maxReads > 0) && limits.maxCount > 0x1_0000
    ensures ReachableWithin(limits, ids, s) && s.granted == g && !Exclusive(Abstract(s))
  {
    var s1 := NestedUnlockEmpties(limits, ids, i, g);
    NestHoldsWrite(0x1_0000 - g, 0);
    s := SecondWriter(limits, ids, s1, i, j);
  }

  /** Exclusion in every run within limits that the read count can take is equivalent to at most
      2^16 outstanding write holds and granted reads together. */
  lemma {:induction false} ExclusionIffCountFits(ids: seq<uint16>, limits: Limits)
    requires DistinctNonZero(ids) && |ids| >= 2 && limits.maxReads <= 0xffff
    ensures (forall s | ReachableWithin(limits, ids, s) :: Exclusive(Abstract(s))) <==> limits.maxCount <= 0x1_0000
  {
    if limits.maxCount <= 0x1_0000 {
      forall s | ReachableWithin(limits, ids, s) ensures Exclusive(Abstract(s)) {
        ReachableInMore(limits, CAPACITY, ids, s);
        WriterExcludesAll(ids, s);
      }
    } else {
      var s := WrappedCountBreaksExclusion(limits, ids, 0, 1, 0);
    }
  }

  lemma {:induction false} ReachableInMore(limits: Limits, more: Limits, ids: seq<uint16>, s: State)
    requires ReachableWithin(limits, ids, s)
    requires limits.maxReads <= more.maxReads && limits.maxCount <= more.maxCount
    ensures ReachableWithin(more, ids, s)
  {
    var ss :| Trace(limits, ids, ss) && ss[|ss| - 1] == s;
    forall k: nat | k < |ss| ensures StepsTo(more, ss, k) {
      assert StepsTo(limits, ss, k);
    }
    assert Trace(more, ids, ss);
  }

  // ---- The width of the read count ----

  /** A thread whose id is in the word takes a read lock. */
  lemma {:induction false} GetsOwnedRead(limits: Limits, ids: seq<uint16>, s: State, i: nat, held: seq<Kind>)
    returns (s': State)
    requires ReachableWithin(limits, ids, s) && i < |s.threads| && IdleWith(s.threads[i], held)
    requires Owner(s.flag) == s.threads[i].id
    requires TotalReads(s) < limits.maxReads && TotalWrites(s) + s.granted <= limits.maxCount
    ensures ReachableWithin(limits, ids, s') && s'.granted == s.granted && s'.flag == Up32(s.flag)
    ensures s'.threads == s.threads[i := IdleThread(s.threads[i].id, held + [Read])]
    ensures TotalWrites(s') == TotalWrites(s) && TotalReads(s') == TotalReads(s) + 1
  {
    CountPush(held, Read, Write);
    CountPush(held, Read, Read);
    var s1 := Invoke(s, i, LockRead);
    ReachableMove(limits, ids, s, Calls(i, LockRead), s1.threads[i]);
    var s2 := Access(s1, i);
    ReachableMove(limits, ids, s1, Accesses(i), s2.threads[i]);
    s' := Access(s2, i);
    ReachableMove(limits, ids, s2, Accesses(i), s'.threads[i]);
    assert s'.threads == s.threads[i := s'.threads[i]];
  }

  /** From `s` to `s'`, thread `i` has nested `r` read locks in its write lock. */
  ghost predicate NestedReads(s: State, i: nat, r: nat, s': State)
    requires i < |s.threads|
  {
    && s'.threads == s.threads[i := IdleThread(s.threads[i].id, Nest(1, r))]
    && s'.granted == s.granted && s'.flag == (s.flag + r) % 0x1_0000_0000
    && TotalReads(s') == TotalReads(s) + r && TotalWrites(s') == TotalWrites(s)
  }

  lemma {:induction false} ReadsOneMore(s: State, i: nat, r: nat, s1: State, s': State)
    requires i < |s.threads| && NestedReads(s, i, r, s1)
    requires s'.threads == s1.threads[i := IdleThread(s1.threads[i].id, Nest(1, r) + [Read])]
    requires s'.granted == s1.granted && s'.flag == Up32(s1.flag)
    requires TotalWrites(s') == TotalWrites(s1) && TotalReads(s') == TotalReads(s1) + 1
    ensures NestedReads(s, i, r + 1, s')
  {
    NestPush(1, r);
    UpdateTwice(s.threads, i, s1.threads[i], s'.threads[i]);
  }

  lemma {:induction false} NestReads(limits: Limits, ids: seq<uint16>, s: State, i: nat, r: nat) returns (s': State)
    requires ReachableWithin(limits, ids, s) && i < |s.threads|
    requires s.threads[i] == IdleThread(s.threads[i].id, Nest(1, 0))
    requires s.flag == s.threads[i].id * 0x1_0000 && r <= 0x1_0000
    requires TotalReads(s) + r <= limits.maxReads && TotalWrites(s) + s.granted <= limits.maxCount
    ensures ReachableWithin(limits, ids, s') && NestedReads(s, i, r, s')
  {
    if r == 0 {
      assert s.threads[i := s.threads[i]] == s.threads;
      s' := s;
    } else {
      var s1 := NestReads(limits, ids, s, i, r - 1);
      CarriesAt(s.threads[i].id, r - 1);
      s' := GetsOwnedRead(limits, ids, s1, i, Nest(1, r - 1));
      ReadsOneMore(s, i, r - 1, s1, s');
    }
  }

  lemma {:induction false} CarriesAt(id: uint16, r: nat)
    requires r <= 0xffff
    ensures id * 0x1_0000 + r < 0x1_0000_0000 && Owner(id * 0x1_0000 + r) == id
  {
  }

  /** What 65536 reads make of the word of this id. */
  function CarriedWord(id: uint16): uint32 {
    if id == 0xffff then EMPTY else (id + 1) * 0x1_0000
  }

  lemma {:induction false} CarriedWordValue(id: uint16)
    ensures (id * 0x1_0000 + 0x1_0000) % 0x1_0000_0000 == CarriedWord(id)
  {
  }

  /** A thread nests 65536 reads in its write lock; the last one carries into the thread id. */
  lemma {:induction false} CarriesIntoId(limits: Limits, ids: seq<uint16>, i: nat) returns (s: State)
    requires i < |ids| && limits.maxReads > 0xffff && limits.maxCount >= 1
    ensures ReachableWithin(limits, ids, s) && s.granted == 0
    ensures s.threads == Start(ids).threads[i := IdleThread(ids[i], Nest(1, 0x1_0000))]
    ensures s.flag == CarriedWord(ids[i])
    ensures TotalReads(s) == 0x1_0000 && TotalWrites(s) == 1
  {
    StartReachable(limits, ids);
    var s1 := NestWrites(limits, ids, Start(ids), i, 1);
    s := NestReads(limits, ids, s1, i, 0x1_0000);
    CarriedWordValue(ids[i]);
    UpdateTwice(Start(ids).threads, i, s1.threads[i], s.threads[i]);
  }

  /** The read count overflows into the thread id: with 65536 reads nested in its write lock, a
      thread's word shows the next id, or none after the last, and that thread gets the lock. */
  lemma {:induction false} CarriedReadsBreakExclusion(limits: Limits, ids: seq<uint16>, i: nat, j: nat)
    returns (s: State)
    requires i < |ids| && j < |ids| && i != j && (ids[j] == (ids[i] as int) + 1 || ids[i] == 0xffff)
    requires limits.maxReads > 0xffff && limits.maxCount >= 2
    ensures ReachableWithin(limits, ids, s) && !Exclusive(Abstract(s))
  {
    var s1 := CarriesIntoId(limits, ids, i);
    WordOfId(ids[j]);
    NestHoldsWrite(1, 0x1_0000);
    s := SecondWriter(limits, ids, s1, i, j);
  }
}
