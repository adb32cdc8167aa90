/** What every run of the packed-word lock guarantees, and exactly when. */
module RwLockTheorems {
  import opened Bits
  import opened RwLock
  import opened RwLockProofs

  function Last(ss: seq<State>): State
    requires ss != []
  {
    ss[|ss| - 1]
  }

  // ---- Runs ----

  lemma {:induction false} PathPrefix(limits: Limits, ss: seq<State>)
    requires Path(limits, ss)
    ensures Within(limits, Last(ss))
    ensures |ss| > 1 ==> Path(limits, ss[..|ss| - 1]) && Step(ss[|ss| - 2], Last(ss))
  {
    assert StepsTo(limits, ss, |ss| - 1);
    if |ss| > 1 {
      var prefix := ss[..|ss| - 1];
      forall k: nat | k < |prefix| ensures StepsTo(limits, prefix, k) {
        assert StepsTo(limits, ss, k);
      }
    }
  }

  lemma {:induction false} PathInv(ss: seq<State>)
    requires Path(CAPACITY, ss) && Inv(ss[0])
    ensures Inv(Last(ss)) && Bounded(Last(ss))
  {
    PathPrefix(CAPACITY, ss);
    if |ss| > 1 {
      PathInv(ss[..|ss| - 1]);
      StepRefines(ss[|ss| - 2], Last(ss));
    }
  }

  lemma {:induction false} ReachableInv(ids: seq<uint16>, s: State)
    requires DistinctNonZero(ids) && Reachable(ids, s)
    ensures Inv(s) && Bounded(s)
  {
    var ss :| Trace(CAPACITY, ids, ss) && Last(ss) == s;
    StartInv(ids);
    PathInv(ss);
  }

  function Abstracts(ss: seq<State>): (r: seq<seq<Holding>>) {
    seq(|ss|, k requires 0 <= k < |ss| => Abstract(ss[k]))
  }

  /** A run of the abstract lock. */
  ghost predicate AbstractPath(hs: seq<seq<Holding>>) {
    && |hs| > 0
    && (|hs| > 1 ==> AbstractPath(hs[..|hs| - 1]) && AbstractStep(hs[|hs| - 2], hs[|hs| - 1]))
  }

  function NothingHeld(n: nat): seq<Holding> {
    seq(n, i => Holding(0, 0))
  }

  /** Refinement over whole runs: what the threads hold evolves as in a run of the abstract
      re-entrant readers-writer lock that starts with nothing held. */
  lemma {:induction false} RunRefines(ids: seq<uint16>, ss: seq<State>)
    requires DistinctNonZero(ids) && Trace(CAPACITY, ids, ss)
    ensures AbstractPath(Abstracts(ss))
    ensures Abstracts(ss)[0] == NothingHeld(|ids|)
  {
    assert Abstracts(ss)[0] == NothingHeld(|ids|);
    if |ss| > 1 {
      var prefix := ss[..|ss| - 1];
      PathPrefix(CAPACITY, ss);
      RunRefines(ids, prefix);
      assert Abstracts(ss)[..|ss| - 1] == Abstracts(prefix);
      StartInv(ids);
      PathInv(prefix);
      StepRefines(ss[|ss| - 2], Last(ss));
    }
  }

  /** Every run of the abstract lock is exclusive. */
  lemma {:induction false} AbstractPathExclusive(hs: seq<seq<Holding>>)
    requires AbstractPath(hs) && Exclusive(hs[0])
    ensures Exclusive(hs[|hs| - 1])
  {
    if |hs| > 1 {
      AbstractPathExclusive(hs[..|hs| - 1]);
    }
  }

  lemma {:induction false} RunExclusive(ids: seq<uint16>, ss: seq<State>)
    requires DistinctNonZero(ids) && Trace(CAPACITY, ids, ss)
    ensures Exclusive(Abstract(Last(ss)))
  {
    var hs := Abstracts(ss);
    RunRefines(ids, ss);
    AbstractPathExclusive(hs);
    assert hs[|hs| - 1] == Abstract(Last(ss));
  }

  /** Mutual exclusion: from a thread's successful TryWriteLock to its unlock, no other thread
      holds the lock in either mode. */
  lemma {:induction false} WriterExcludesAll(ids: seq<uint16>, s: State)
    requires DistinctNonZero(ids) && Reachable(ids, s)
    ensures Exclusive(Abstract(s))
  {
    var ss :| Trace(CAPACITY, ids, ss) && Last(ss) == s;
    RunExclusive(ids, ss);
  }

  /** Every call that has returned has had exactly its one effect on the caller's stack: a lock
      call pushed one hold, an unlock call popped one. */
  lemma {:induction false} ReturnedCallsTookEffect(ids: seq<uint16>, s: State, i: nat)
    requires DistinctNonZero(ids) && Reachable(ids, s) && i < |s.threads| && s.threads[i].pc == Idle
    ensures s.threads[i].held == s.threads[i].target
  {
    ReachableInv(ids, s);
    assert ThreadOk(Owner(s.flag), s.granted, s.threads[i]);
  }

  // ---- LockCount ----

  /** LockCount is, in 16 bits, the counted write depth of all threads plus the increments kept of
      the shared reads ever granted: never more than those reads, and none only if there were none.
      The write depth belongs to the thread in the word, if any. */
  lemma {:induction false} LockCountAccounting(ids: seq<uint16>, s: State)
    requires DistinctNonZero(ids) && Reachable(ids, s)
    ensures s.count == Wrap16(Total(s.threads, Counted) + s.kept)
    ensures s.kept <= s.granted && (s.kept == 0 <==> s.granted == 0)
    ensures forall i | 0 <= i < |s.threads| && s.threads[i].id == Owner(s.flag) ::
              s.count == Wrap16(Counted(s.threads[i]) + s.kept)
    ensures Owner(s.flag) == 0 ==> s.count == Wrap16(s.kept)
  {
    ReachableInv(ids, s);
    OwnersCount(s);
    if Owner(s.flag) == 0 {
      NoOwnerCount(s);
    }
  }

  lemma {:induction false} OwnersCount(s: State)
    requires Inv(s)
    ensures forall i | 0 <= i < |s.threads| && s.threads[i].id == Owner(s.flag) ::
              s.count == Wrap16(Counted(s.threads[i]) + s.kept)
  {
    forall i | 0 <= i < |s.threads| && s.threads[i].id == Owner(s.flag)
      ensures s.count == Wrap16(Counted(s.threads[i]) + s.kept)
    {
      OwnedCount(s, i);
    }
  }

  lemma {:induction false} NoOwnerCount(s: State)
    requires Inv(s) && Owner(s.flag) == 0
    ensures s.count == Wrap16(s.kept)
  {
    forall i: nat | i < |s.threads| ensures Counted(s.threads[i]) == 0 {
      NoOwnerNoWriter(s, i);
    }
    TotalNone(s.threads, Counted);
  }

  /** A thread whose next access is to LockCount. */
  predicate AtLockCount(t: Thread) {
    t.pc.WriteCount? || t.pc.UnlockDecrement? || Counting(t)
  }

  /** A writer changes LockCount with no other thread inside an access to it, so taking its
      increment and its decrement as one step leaves out no interleaving; only readers race. */
  lemma {:induction false} WritersCountAlone(ids: seq<uint16>, s: State, i: nat, j: nat)
    requires DistinctNonZero(ids) && Reachable(ids, s) && i < |s.threads| && j < |s.threads| && i != j
    requires AtLockCount(s.threads[i]) && AtLockCount(s.threads[j])
    ensures Counting(s.threads[i]) && Counting(s.threads[j])
  {
    ReachableInv(ids, s);
    assert ThreadOk(Owner(s.flag), s.granted, s.threads[i]) && ThreadOk(Owner(s.flag), s.granted, s.threads[j]);
    assert Ids(s)[i] != Ids(s)[j] && Ids(s)[i] != 0 && Ids(s)[j] != 0;
  }

  /** The outermost write unlock empties the word exactly when no shared read was granted
      before it; otherwise it returns with the caller's id still in the word. */
  lemma {:induction false} OutermostUnlockReleasesIff(ids: seq<uint16>, s: State, i: nat)
    requires DistinctNonZero(ids) && Reachable(ids, s)
    requires i < |s.threads| && s.threads[i].pc == UnlockDecrement && Writes(s.threads[i]) == 1
    ensures s.granted == 0 ==> Access(Access(s, i), i).flag == EMPTY && Access(Access(s, i), i).threads[i].pc == Idle
    ensures s.granted != 0 ==> Access(s, i).threads[i].pc == Idle && Access(s, i).flag == s.flag
                               && Owner(s.flag) == s.threads[i].id != 0
  {
    ReachableInv(ids, s);
    OutermostUnlock(s, i);
  }

  lemma {:induction false} OutermostUnlock(s: State, i: nat)
    requires Inv(s) && Bounded(s) && i < |s.threads| && s.threads[i].pc == UnlockDecrement && Writes(s.threads[i]) == 1
    ensures s.granted == 0 ==> Access(Access(s, i), i).flag == EMPTY && Access(Access(s, i), i).threads[i].pc == Idle
    ensures s.granted != 0 ==> Access(s, i).threads[i].pc == Idle && Access(s, i).flag == s.flag
                               && Owner(s.flag) == s.threads[i].id != 0
  {
    UnlockStepOutcome(s, i);
    if s.granted == 0 {
      StoreOutcome(Access(s, i), i);
    }
  }

  lemma {:induction false} StoreOutcome(s: State, i: nat)
    requires i < |s.threads| && s.threads[i].pc == UnlockStore
    ensures Access(s, i).flag == EMPTY && Access(s, i).threads[i].pc == Idle
  {
  }

  lemma {:induction false} UnlockStepOutcome(s: State, i: nat)
    requires Inv(s) && Bounded(s) && i < |s.threads| && s.threads[i].pc == UnlockDecrement
    ensures Access(s, i).flag == s.flag && Owner(s.flag) == s.threads[i].id != 0
    ensures Access(s, i).threads[i].pc == if Writes(s.threads[i]) == 1 && s.granted == 0 then UnlockStore else Idle
  {
    DecrementStep(s, i);
    assert ThreadOk(Owner(s.flag), s.granted, s.threads[i]);
    assert s.threads[i].id == Ids(s)[i];
  }

  /** An inner write unlock never empties the word. */
  lemma {:induction false} InnerUnlockKeepsWord(ids: seq<uint16>, s: State, i: nat)
    requires DistinctNonZero(ids) && Reachable(ids, s)
    requires i < |s.threads| && s.threads[i].pc == UnlockDecrement && Writes(s.threads[i]) > 1
    ensures Access(s, i).threads[i].pc == Idle && Access(s, i).flag == s.flag
  {
    ReachableInv(ids, s);
    UnlockStepOutcome(s, i);
  }

  lemma {:induction false} OwnedReadKeepsOwner(s: State, i: nat)
    requires Inv(s) && i < |s.threads| && s.threads[i].pc == ReadOwned && Bounded(Access(s, i))
    ensures Owner(Access(s, i).flag) == Owner(s.flag)
  {
    var t := s.threads[i];
    var t' := t.(pc := Idle, held := t.held + [Read]);
    assert ThreadOk(Owner(s.flag), s.granted, t);
    OwnerIsAlone(s, i);
    CountPush(t.held, Read, Read);
    assert Access(s, i).threads[i] == t';
    ReadsBounded(Access(s, i), i);
    WordUp(s.flag);
  }

  lemma {:induction false} ReadReleaseKeepsOwner(s: State, i: nat)
    requires Inv(s) && i < |s.threads| && s.threads[i].pc == ReadRelease
    ensures Owner(Access(s, i).flag) == Owner(s.flag)
  {
    assert ThreadOk(Owner(s.flag), s.granted, s.threads[i]);
    ReadReleaseThread(Owner(s.flag), s.granted, s.threads[i]);
    ReadsBounded(s, i);
    WordDown(s.flag);
  }

  lemma {:induction false} OwnerStays(s: State, s': State)
    requires Inv(s) && Step(s, s') && Bounded(s') && Owner(s.flag) != 0 && s.granted > 0
    ensures Owner(s'.flag) == Owner(s.flag) && s'.granted >= s.granted
  {
    var a :| Enabled(s, a) && s' == Apply(s, a);
    var t := s.threads[a.i];
    assert ThreadOk(Owner(s.flag), s.granted, t);
    if a.Accesses? && t.pc == ReadOwned {
      OwnedReadKeepsOwner(s, a.i);
    } else if a.Accesses? && t.pc == ReadRelease {
      ReadReleaseKeepsOwner(s, a.i);
    } else {
      assert s'.flag == s.flag;
    }
  }

  /** Once a shared read has been granted, the next thread whose id enters the word stays there
      for good: in the rest of the run no other thread holds anything again. */
  lemma {:induction false} OwnershipBecomesPermanent(ss: seq<State>)
    requires Path(CAPACITY, ss) && Inv(ss[0]) && Owner(ss[0].flag) != 0 && ss[0].granted > 0
    ensures Owner(Last(ss).flag) == Owner(ss[0].flag) && Last(ss).granted > 0
    ensures forall j | 0 <= j < |Last(ss).threads| && Last(ss).threads[j].id != Owner(ss[0].flag) ::
              Last(ss).threads[j].held == []
  {
    if |ss| > 1 {
      PathPrefix(CAPACITY, ss);
      OwnershipBecomesPermanent(ss[..|ss| - 1]);
      PathInv(ss[..|ss| - 1]);
      OwnerStays(ss[|ss| - 2], Last(ss));
    }
    PathInv(ss);
    var s := Last(ss);
    forall j | 0 <= j < |s.threads| && s.threads[j].id != Owner(s.flag) ensures s.threads[j].held == [] {
      assert ThreadOk(Owner(s.flag), s.granted, s.threads[j]);
    }
  }

  // ---- Exclusion holds for exactly the id assignments without zero and without repeats ----

  lemma {:induction false} PathExtended(limits: Limits, ss: seq<State>, s: State)
    requires Path(limits, ss) && Step(Last(ss), s) && Within(limits, s)
    ensures Path(limits, ss + [s])
  {
    forall k: nat | k < |ss + [s]| ensures StepsTo(limits, ss + [s], k) {
      assert k < |ss| ==> StepsTo(limits, ss, k);
    }
  }

  lemma {:induction false} ReachableStep(limits: Limits, ids: seq<uint16>, s: State, a: Action)
    requires ReachableWithin(limits, ids, s) && Enabled(s, a) && Within(limits, Apply(s, a))
    ensures ReachableWithin(limits, ids, Apply(s, a))
  {
    var ss :| Trace(limits, ids, ss) && Last(ss) == s;
    var s' := Apply(s, a);
    PathExtended(limits, ss, s');
    assert Trace(limits, ids, ss + [s']);
  }

  /** A step that moves its thread to `t` stays within limits that `t` fits. */
  lemma {:induction false} ReachableMove(limits: Limits, ids: seq<uint16>, s: State, a: Action, t: Thread)
    requires ReachableWithin(limits, ids, s) && Enabled(s, a)
    requires Apply(s, a).threads == s.threads[a.i := t]
    requires TotalReads(s) - Reads(s.threads[a.i]) + Reads(t) <= limits.maxReads
    requires TotalWrites(s) - Writes(s.threads[a.i]) + Writes(t) + Apply(s, a).granted <= limits.maxCount
    ensures ReachableWithin(limits, ids, Apply(s, a))
    ensures TotalReads(Apply(s, a)) == TotalReads(s) - Reads(s.threads[a.i]) + Reads(t)
    ensures TotalWrites(Apply(s, a)) == TotalWrites(s) - Writes(s.threads[a.i]) + Writes(t)
  {
    TotalUpdate(s.threads, Reads, a.i, t);
    TotalUpdate(s.threads, Writes, a.i, t);
    ReachableStep(limits, ids, s, a);
  }

  /** A thread outside the lock's methods, holding `held`. */
  function IdleThread(id: uint16, held: seq<Kind>): Thread {
    Thread(id, Idle, held, held)
  }

  predicate IdleWith(t: Thread, held: seq<Kind>) {
    t == IdleThread(t.id, held)
  }

  /** A thread that finds the word empty, or finds what it takes for its own id, gets the lock. */
  lemma {:induction false} GetsWriteLock(limits: Limits, ids: seq<uint16>, s: State, i: nat, held: seq<Kind>)
    returns (s': State)
    requires ReachableWithin(limits, ids, s) && i < |s.threads| && IdleWith(s.threads[i], held)
    requires s.flag == EMPTY || Owner(s.flag) == s.threads[i].id
    requires TotalReads(s) <= limits.maxReads && TotalWrites(s) + s.granted < limits.maxCount
    ensures ReachableWithin(limits, ids, s') && s'.granted == s.granted && s'.count == Up16(s.count)
    ensures s'.threads == s.threads[i := IdleThread(s.threads[i].id, held + [Write])]
    ensures TotalWrites(s') == TotalWrites(s) + 1 && TotalReads(s') == TotalReads(s)
    ensures s'.flag == if Owner(s.flag) == s.threads[i].id then s.flag else s.threads[i].id * 0x1_0000
  {
    CountPush(held, Write, Write);
    CountPush(held, Write, Read);
    var s1 := Invoke(s, i, LockWrite);
    ReachableMove(limits, ids, s, Calls(i, LockWrite), s1.threads[i]);
    var s2 := Access(s1, i);
    ReachableMove(limits, ids, s1, Accesses(i), s2.threads[i]);
    var s3 := Access(s2, i);
    ReachableMove(limits, ids, s2, Accesses(i), s3.threads[i]);
    s' := s3;
    if Owner(s.flag) != s.threads[i].id {
      s' := Access(s3, i);
      ReachableMove(limits, ids, s3, Accesses(i), s'.threads[i]);
    }
    assert s'.threads == s.threads[i := s'.threads[i]];
  }

  lemma {:induction false} StartReachable(limits: Limits, ids: seq<uint16>)
    ensures ReachableWithin(limits, ids, Start(ids))
    ensures TotalReads(Start(ids)) == 0 && TotalWrites(Start(ids)) == 0
  {
    TotalNone(Start(ids).threads, Reads);
    TotalNone(Start(ids).threads, Writes);
    assert StepsTo(limits, [Start(ids)], 0);
    assert Trace(limits, ids, [Start(ids)]);
  }

  lemma {:induction false} BothHold(s: State, i: nat, j: nat)
    requires i < |s.threads| && j < |s.threads| && i != j
    requires Writes(s.threads[i]) > 0 && Writes(s.threads[j]) > 0
    ensures !Exclusive(Abstract(s))
  {
    assert Abstract(s)[i].exclusive > 0 && Abstract(s)[j].exclusive > 0;
  }

  /** One thread holds the write lock, and another gets it too. */
  lemma {:induction false} SecondWriter(limits: Limits, ids: seq<uint16>, s: State, i: nat, j: nat) returns (s': State)
    requires ReachableWithin(limits, ids, s) && i < |s.threads| && j < |s.threads| && i != j
    requires Writes(s.threads[i]) > 0 && IdleWith(s.threads[j], [])
    requires s.flag == EMPTY || Owner(s.flag) == s.threads[j].id
    requires TotalReads(s) <= limits.maxReads && TotalWrites(s) + s.granted < limits.maxCount
    ensures ReachableWithin(limits, ids, s') && s'.granted == s.granted && !Exclusive(Abstract(s'))
  {
    CountPush([], Write, Write);
    s' := GetsWriteLock(limits, ids, s, j, []);
    BothHold(s', i, j);
  }

  /** Two threads sharing an id, or one thread with id 0, can both hold the write lock. */
  lemma {:induction false} BadIdsBreakExclusion(limits: Limits, ids: seq<uint16>, i: nat, j: nat) returns (s: State)
    requires i < |ids| && j < |ids| && i != j && (ids[i] == 0 || ids[i] == ids[j]) && limits.maxCount >= 2
    ensures ReachableWithin(limits, ids, s) && !Exclusive(Abstract(s))
  {
    StartReachable(limits, ids);
    CountPush([], Write, Write);
    var s1 := GetsWriteLock(limits, ids, Start(ids), i, []);
    WordOfId(ids[i]);
    s := SecondWriter(limits, ids, s1, i, j);
  }

  lemma {:induction false} NotDistinctNonZero(ids: seq<uint16>) returns (i: nat, j: nat)
    requires |ids| >= 2 && !DistinctNonZero(ids)
    ensures i < |ids| && j < |ids| && i != j && (ids[i] == 0 || ids[i] == ids[j])
  {
    if k :| 0 <= k < |ids| && ids[k] == 0 {
      i, j := k, if k == 0 then 1 else 0;
    } else {
      i, j :| 0 <= i < j < |ids| && ids[i] == ids[j];
    }
  }

  /** Exclusion in every run is equivalent to the ids being non-zero and pairwise distinct. */
  lemma {:induction false} ExclusionIffIdsDistinct(ids: seq<uint16>)
    requires |ids| >= 2
    ensures (forall s | Reachable(ids, s) :: Exclusive(Abstract(s))) <==> DistinctNonZero(ids)
  {
    if DistinctNonZero(ids) {
      forall s | Reachable(ids, s) ensures Exclusive(Abstract(s)) {
        WriterExcludesAll(ids, s);
      }
    } else {
      var i, j := NotDistinctNonZero(ids);
      var s := BadIdsBreakExclusion(CAPACITY, ids, i, j);
    }
  }
}
