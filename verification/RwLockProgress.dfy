/** A thread that steps alone: whether its call returns, and that it then has done what it should. */
module RwLockProgress {
  import opened Bits
  import opened RwLock
  import opened RwLockProofs
  import opened RwLockTheorems

  /** After `n` accesses of thread `i`, nobody else stepping. */
  function Alone(s: State, i: nat, n: nat): (s': State)
    requires i < |s.threads|
    ensures |s'.threads| == |s.threads|
  {
    if n == 0 then s else Access(Alone(s, i, n - 1), i)
  }

  /** The call that thread `i` is in finds the lock free for it: a write lock needs an empty word or
      the own id in it, a read lock one without another's id, and unlocking nothing. */
  predicate Available(s: State, i: nat)
    requires i < |s.threads|
  {
    var id := s.threads[i].id;
    match s.threads[i].pc
    case WriteLoad => s.flag == EMPTY || Owner(s.flag) == id
    case WriteCas => s.flag == EMPTY
    case ReadLoad => Owner(s.flag) == 0 || Owner(s.flag) == id
    case ReadSpin | ReadCas(_) => Owner(s.flag) == 0
    case _ => true
  }

  /** How many accesses a call with a free lock still takes at most. */
  function AccessesLeft(s: State, i: nat): nat
    requires i < |s.threads|
  {
    match s.threads[i].pc
    case Idle => 0
    case WriteCount(_) | UnlockStore | ReadOwned | ReadStore(_) | ReadRelease => 1
    case WriteCas | UnlockDecrement | ReadCount => 2
    case WriteLoad | UnlockCheck => 3
    case ReadCas(expected) => if s.flag == expected then 3 else 5
    case ReadSpin => 4
    case ReadLoad => 5
  }

  /** After `n` accesses thread `i` has returned, and left behind just what its call had to. */
  predicate ReturnsAfter(s: State, i: nat, n: nat)
    requires i < |s.threads|
  {
    var t := Alone(s, i, n).threads[i];
    t.pc == Idle && t.held == s.threads[i].target
  }

  lemma {:induction false} OthersStand(s: State, i: nat, n: nat, j: nat)
    requires i < |s.threads| && j < |s.threads| && i != j
    ensures Alone(s, i, n).threads[j] == s.threads[j]
  {
    if n > 0 {
      OthersStand(s, i, n - 1, j);
    }
  }

  lemma {:induction false} AvailableStep(s: State, i: nat)
    requires i < |s.threads| && s.threads[i].pc != Idle && Available(s, i) && OnTarget(s.threads[i])
    ensures var s' := Access(s, i);
            && s'.threads[i].target == s.threads[i].target && OnTarget(s'.threads[i]) && Available(s', i)
            && AccessesLeft(s', i) < AccessesLeft(s, i)
  {
  }

  lemma {:induction false} AloneFrom(s: State, i: nat, n: nat)
    requires i < |s.threads|
    ensures Alone(Access(s, i), i, n) == Alone(s, i, n + 1)
  {
    if n > 0 {
      AloneFrom(s, i, n - 1);
    }
  }

  /** With a free lock the call returns within the accesses left. */
  lemma {:induction false} AloneReturns(s: State, i: nat) returns (n: nat)
    requires i < |s.threads| && Available(s, i) && OnTarget(s.threads[i])
    ensures n <= AccessesLeft(s, i) && ReturnsAfter(s, i, n)
    decreases AccessesLeft(s, i)
  {
    if s.threads[i].pc == Idle {
      n := 0;
    } else {
      AvailableStep(s, i);
      n := AloneReturns(Access(s, i), i);
      AloneFrom(s, i, n);
      n := n + 1;
    }
  }

  /** The call waits: the lock is not free for it, and the value it compares with has no owner. */
  predicate Waits(s: State, i: nat)
    requires i < |s.threads|
  {
    !Available(s, i) && s.threads[i].id != 0
    && (s.threads[i].pc.ReadCas? ==> s.threads[i].pc.expected <= 0xffff)
  }

  lemma {:induction false} WaitingStep(s: State, i: nat)
    requires i < |s.threads| && Waits(s, i)
    ensures Waits(Access(s, i), i) && Access(s, i).flag == s.flag
    ensures Access(s, i).threads[i].held == s.threads[i].held
  {
  }

  /** With a lock that is not free the call never returns, and takes nothing. */
  lemma {:induction false} AloneWaits(s: State, i: nat, n: nat)
    requires i < |s.threads| && Waits(s, i)
    ensures Waits(Alone(s, i, n), i) && Alone(s, i, n).flag == s.flag
    ensures Alone(s, i, n).threads[i].held == s.threads[i].held && !ReturnsAfter(s, i, n)
  {
    if n > 0 {
      AloneWaits(s, i, n - 1);
      WaitingStep(Alone(s, i, n - 1), i);
    }
  }

  lemma {:induction false} ReachableThread(ids: seq<uint16>, s: State, i: nat)
    requires DistinctNonZero(ids) && Reachable(ids, s) && i < |s.threads|
    ensures OnTarget(s.threads[i]) && s.threads[i].id != 0
    ensures s.threads[i].pc.ReadCas? ==> s.threads[i].pc.expected <= 0xffff
  {
    ReachableInv(ids, s);
    assert ThreadOk(Owner(s.flag), s.granted, s.threads[i]) && s.threads[i].id == Ids(s)[i];
  }

  /** In every reachable state a thread inside a call, stepping alone, returns from it if and only if
      the lock is free for it; then it does so within five accesses, having pushed or popped its one
      hold. */
  lemma {:induction false} AloneReturnsIff(ids: seq<uint16>, s: State, i: nat)
    requires DistinctNonZero(ids) && Reachable(ids, s) && i < |s.threads|
    ensures (exists n: nat :: ReturnsAfter(s, i, n)) <==> Available(s, i)
    ensures Available(s, i) ==> exists n: nat | n <= 5 :: ReturnsAfter(s, i, n)
  {
    ReachableThread(ids, s, i);
    if Available(s, i) {
      var n := AloneReturns(s, i);
    } else {
      forall n: nat ensures !ReturnsAfter(s, i, n) {
        AloneWaits(s, i, n);
      }
    }
  }

  lemma {:induction false} SpinThenTake(s: State, i: nat)
    requires i < |s.threads| && Owner(s.flag) == 0 && s.threads[i].pc.ReadSpin?
    ensures Alone(s, i, 2).threads[i].held == s.threads[i].held + [Read]
  {
    assert Alone(s, i, 1) == Access(s, i);
  }

  /** A reader that steps alone on a word without owner has its hold within three accesses. */
  lemma {:induction false} ReaderGetsIn(ids: seq<uint16>, s: State, i: nat) returns (n: nat)
    requires DistinctNonZero(ids) && Reachable(ids, s) && i < |s.threads| && Owner(s.flag) == 0
    requires s.threads[i].pc.ReadSpin? || s.threads[i].pc.ReadCas?
    ensures n <= 3 && Alone(s, i, n).threads[i].held == s.threads[i].target == s.threads[i].held + [Read]
  {
    ReachableThread(ids, s, i);
    if s.threads[i].pc.ReadSpin? {
      n := 2;
      SpinThenTake(s, i);
    } else if s.flag == s.threads[i].pc.expected {
      n := 1;
      assert Alone(s, i, 0) == s;
    } else {
      n := 3;
      SpinThenTake(Access(s, i), i);
      AloneFrom(s, i, 2);
    }
  }
}
