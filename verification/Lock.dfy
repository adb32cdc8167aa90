/**
 * The lock object. Each method performs the next atomic access of one calling thread, on the
 * packed word with the mask and shift expressions, and moves that thread's position; the
 * interleaving of threads is the order of the calls.
 */
module LockObject {
  import opened Bits
  import opened RwLock
  import opened RwLockProofs

  class Lock {
    var lockFlag: uint32
    var lockCount: uint16
    var threads: seq<Thread>
    ghost var granted: nat
    ghost var kept: nat

    ghost function Now(): State
      reads this
    {
      State(lockFlag, lockCount, granted, kept, threads)
    }

    constructor (ids: seq<uint16>)
      ensures Now() == Start(ids)
      ensures DistinctNonZero(ids) ==> Inv(Now())
    {
      lockFlag, lockCount, granted, kept := 0, 0, 0, 0;
      threads := seq(|ids|, i requires 0 <= i < |ids| => Thread(ids[i], Idle, [], []));
      new;
      if DistinctNonZero(ids) {
        StartInv(ids);
      }
    }

    method Call(i: nat, c: RwLock.Call)
      requires i < |threads| && MayCall(threads[i], c)
      modifies this
      ensures Now() == Invoke(old(Now()), i, c)
    {
      threads := threads[i := Entered(threads[i], c)];
    }

    method Move(i: nat, pc: Pc, held: seq<Kind>)
      requires i < |threads|
      modifies this`threads
      ensures threads == old(threads)[i := old(threads)[i].(pc := pc, held := held)]
    {
      threads := threads[i := threads[i].(pc := pc, held := held)];
    }

    method TryWriteLock(i: nat)
      requires i < |threads| && (threads[i].pc.WriteLoad? || threads[i].pc.WriteCas? || threads[i].pc.WriteCount?)
      modifies this
      ensures Now() == Access(old(Now()), i)
      ensures old(Inv(Now()) && Bounded(Now())) && Bounded(Now()) ==>
                Inv(Now()) && AbstractStep(old(Abstract(Now())), Abstract(Now()))
    {
      var t := threads[i];
      match t.pc {
        case WriteLoad =>
          WordFields(lockFlag);
          Move(i, if OwnerField(lockFlag) == t.id then WriteCount(true) else WriteCas, t.held);
        case WriteCas =>
          var desired := ShiftedId(t.id);
          if lockFlag == 0 {
            ShiftedIdValue(t.id);
            lockFlag := desired;
            Move(i, WriteCount(false), t.held + [Write]);
          }
        case WriteCount(owned) =>
          lockCount := Up16(lockCount);
          Move(i, Idle, if owned then t.held + [Write] else t.held);
      }
      Refined(old(Now()), Now(), i);
    }

    method TryWriteUnLock(i: nat)
      requires i < |threads|
      requires threads[i].pc.UnlockCheck? || threads[i].pc.UnlockDecrement? || threads[i].pc.UnlockStore?
      modifies this
      ensures Now() == Access(old(Now()), i)
      ensures old(Inv(Now()) && Bounded(Now())) && Bounded(Now()) ==>
                Inv(Now()) && AbstractStep(old(Abstract(Now())), Abstract(Now()))
    {
      var t := threads[i];
      match t.pc {
        case UnlockCheck =>
          Move(i, UnlockDecrement, t.held);
        case UnlockDecrement =>
          lockCount := Down16(lockCount);
          Move(i, if lockCount == 0 then UnlockStore else Idle, Pop(t.held));
        case UnlockStore =>
          lockFlag := 0;
          Move(i, Idle, t.held);
      }
      Refined(old(Now()), Now(), i);
    }

    method TryReadLock(i: nat)
      requires i < |threads|
      requires
        var pc := threads[i].pc;
        pc.ReadLoad? || pc.ReadOwned? || pc.ReadSpin? || pc.ReadCas? || pc.ReadCount? || pc.ReadStore?
      modifies this
      ensures Now() == Access(old(Now()), i)
      ensures old(Inv(Now()) && Bounded(Now())) && Bounded(Now()) ==>
                Inv(Now()) && AbstractStep(old(Abstract(Now())), Abstract(Now()))
    {
      var t := threads[i];
      match t.pc {
        case ReadLoad =>
          WordFields(lockFlag);
          Move(i, if OwnerField(lockFlag) == t.id then ReadOwned else ReadSpin, t.held);
        case ReadOwned =>
          lockFlag := Up32(lockFlag);
          Move(i, Idle, t.held + [Read]);
        case ReadSpin =>
          WordFields(lockFlag);
          Move(i, ReadCas(ReaderField(lockFlag)), t.held);
        case ReadCas(expected) =>
          if lockFlag == expected {
            lockFlag := Up32(expected);
            Move(i, ReadCount, t.held + [Read]);
          } else {
            Move(i, ReadSpin, t.held);
          }
        case ReadCount =>
          Move(i, ReadStore(lockCount), t.held);
        case ReadStore(loaded) =>
          lockCount := Up16(loaded);
          granted, kept := granted + 1, loaded + 1;
          Move(i, Idle, t.held);
      }
      Refined(old(Now()), Now(), i);
    }

    method TryReadUnLock(i: nat)
      requires i < |threads| && threads[i].pc.ReadRelease?
      modifies this
      ensures Now() == Access(old(Now()), i)
      ensures old(Inv(Now()) && Bounded(Now())) && Bounded(Now()) ==>
                Inv(Now()) && AbstractStep(old(Abstract(Now())), Abstract(Now()))
    {
      lockFlag := Down32(lockFlag);
      Move(i, Idle, Pop(threads[i].held));
      Refined(old(Now()), Now(), i);
    }
  }

  lemma {:induction false} Refined(s: State, s': State, i: nat)
    requires i < |s.threads| && s.threads[i].pc != Idle && s' == Access(s, i)
    ensures Inv(s) && Bounded(s) && Bounded(s') ==> Inv(s') && AbstractStep(Abstract(s), Abstract(s'))
  {
    if Inv(s) && Bounded(s) && Bounded(s') {
      assert Enabled(s, Accesses(i)) && s' == Apply(s, Accesses(i));
      StepRefines(s, s');
    }
  }
}
