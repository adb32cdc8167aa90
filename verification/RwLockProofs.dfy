/** Invariant, refinement and accounting of the packed-word lock. */
module RwLockProofs {
  import opened Bits
  import opened RwLock

  // ---- Sums over threads and counts over stacks ----

  lemma {:induction false} TotalUpdate(ts: seq<Thread>, f: Thread -> int, i: nat, t: Thread)
    requires i < |ts|
    ensures Total(ts[i := t], f) == Total(ts, f) - f(ts[i]) + f(t)
  {
    var n := |ts| - 1;
    if i == n {
      assert ts[i := t][..n] == ts[..n];
    } else {
      assert ts[i := t][..n] == ts[..n][i := t];
      TotalUpdate(ts[..n], f, i, t);
    }
  }

  lemma {:induction false} TotalZero(ts: seq<Thread>, f: Thread -> int)
    requires forall t <- ts :: f(t) >= 0
    ensures Total(ts, f) >= 0
    ensures forall t <- ts :: f(t) <= Total(ts, f)
  {
    if ts != [] {
      TotalZero(ts[..|ts| - 1], f);
    }
  }

  /** When all threads but `i` contribute nothing, the sum is the contribution of `i`. */
  lemma {:induction false} TotalOnly(ts: seq<Thread>, f: Thread -> int, i: nat)
    requires i < |ts|
    requires forall j | 0 <= j < |ts| && j != i :: f(ts[j]) == 0
    ensures Total(ts, f) == f(ts[i])
  {
    var n := |ts| - 1;
    if i == n {
      TotalNone(ts[..n], f);
    } else {
      TotalOnly(ts[..n], f, i);
    }
  }

  lemma {:induction false} TotalNone(ts: seq<Thread>, f: Thread -> int)
    requires forall t <- ts :: f(t) == 0
    ensures Total(ts, f) == 0
  {
    if ts != [] {
      TotalNone(ts[..|ts| - 1], f);
    }
  }

  lemma {:induction false} CountPush(held: seq<Kind>, x: Kind, k: Kind)
    ensures Count(held + [x], k) == Count(held, k) + if x == k then 1 else 0
  {
    assert Pop(held + [x]) == held;
  }

  lemma {:induction false} CountAll(held: seq<Kind>)
    ensures Count(held, Write) + Count(held, Read) == |held|
  {
    if held != [] {
      CountAll(Pop(held));
    }
  }

  // ---- The invariant ----

  predicate DistinctNonZero(ids: seq<uint16>) {
    && (forall i | 0 <= i < |ids| :: ids[i] != 0)
    && (forall i, j | 0 <= i < j < |ids| :: ids[i] != ids[j])
  }

  function Ids(s: State): seq<uint16> {
    seq(|s.threads|, i requires 0 <= i < |s.threads| => s.threads[i].id)
  }

  /** Each call either still has to do its one abstract effect, or has done it. */
  predicate OnTarget(t: Thread) {
    match t.pc
    case WriteLoad | WriteCas | WriteCount(true) => t.target == t.held + [Write]
    case ReadLoad | ReadOwned | ReadSpin | ReadCas(_) => t.target == t.held + [Read]
    case UnlockCheck | UnlockDecrement => t.held != [] && Top(t.held) == Write && t.target == Pop(t.held)
    case ReadRelease => t.held != [] && Top(t.held) == Read && t.target == Pop(t.held)
    case WriteCount(false) => t.held == t.target && t.held != [] && Top(t.held) == Write
    case ReadCount | ReadStore(_) => t.held == t.target && t.held != []
    case Idle | UnlockStore => t.held == t.target
  }

  /** A thread at one of these accesses relies on the word carrying its id. */
  predicate ReliesOnOwning(t: Thread) {
    t.pc.WriteCount? || t.pc.UnlockCheck? || t.pc.UnlockDecrement? || t.pc.UnlockStore? || t.pc.ReadOwned?
  }

  /** A thread that has taken a shared read and is still to increment LockCount for it. */
  predicate Counting(t: Thread) {
    t.pc.ReadCount? || t.pc.ReadStore?
  }

  /** What a thread may assume about the owner field and the number of granted shared reads. */
  predicate ThreadOk(owner: nat, granted: nat, t: Thread) {
    && OnTarget(t)
    && (Writes(t) > 0 || ReliesOnOwning(t) ==> owner == t.id)
    && (owner != 0 && owner != t.id ==> t.held == [])
    && (Counting(t) ==> owner == 0)
    && (granted == 0 && t.held != [] ==> t.held[0] == Write || Counting(t))
    && (granted == 0 && owner == t.id ==> Writes(t) > 0 || t.pc == UnlockStore)
    && (t.pc == UnlockStore ==> t.held == [] && granted == 0)
    && (t.pc.ReadCas? ==> t.pc.expected <= 0xffff)
    && (t.pc.ReadStore? && granted <= 0xffff ==> t.pc.loaded <= granted)
  }

  predicate Inv(s: State) {
    && DistinctNonZero(Ids(s))
    && (forall i | 0 <= i < |s.threads| :: ThreadOk(Owner(s.flag), s.granted, s.threads[i]))
    && Readers(s.flag) == TotalReads(s)
    && s.count == Wrap16(Total(s.threads, Counted) + s.kept)
    && s.kept <= s.granted && (s.kept == 0 ==> s.granted == 0)
    && (Owner(s.flag) != 0 ==> Owner(s.flag) in Ids(s))
  }

  // ---- The abstract lock ----

  /** What one thread holds: re-entrant write holds and read holds. */
  datatype Holding = Holding(exclusive: nat, shared: nat)

  function Held(t: Thread): Holding {
    Holding(Count(t.held, Write), Count(t.held, Read))
  }

  function Abstract(s: State): seq<Holding> {
    seq(|s.threads|, i requires 0 <= i < |s.threads| => Held(s.threads[i]))
  }

  /** A write hold excludes all holds of other threads. */
  predicate Exclusive(a: seq<Holding>) {
    forall i, j | 0 <= i < |a| && 0 <= j < |a| && i != j && a[i].exclusive > 0 :: a[j] == Holding(0, 0)
  }

  predicate AcquiresWrite(a: seq<Holding>, i: nat, a': seq<Holding>) {
    && i < |a|
    && (forall j | 0 <= j < |a| && j != i :: a[j] == Holding(0, 0))
    && a' == a[i := a[i].(exclusive := a[i].exclusive + 1)]
  }

  predicate AcquiresRead(a: seq<Holding>, i: nat, a': seq<Holding>) {
    && i < |a|
    && (forall j | 0 <= j < |a| && j != i :: a[j].exclusive == 0)
    && a' == a[i := a[i].(shared := a[i].shared + 1)]
  }

  predicate ReleasesWrite(a: seq<Holding>, i: nat, a': seq<Holding>) {
    i < |a| && a[i].exclusive > 0 && a' == a[i := a[i].(exclusive := a[i].exclusive - 1)]
  }

  predicate ReleasesRead(a: seq<Holding>, i: nat, a': seq<Holding>) {
    i < |a| && a[i].shared > 0 && a' == a[i := a[i].(shared := a[i].shared - 1)]
  }

  /** The abstract re-entrant readers-writer lock: one guarded acquire, one release, or nothing. */
  ghost predicate AbstractStep(a: seq<Holding>, a': seq<Holding>) {
    || a' == a
    || exists i: nat ::
         AcquiresWrite(a, i, a') || AcquiresRead(a, i, a') || ReleasesWrite(a, i, a') || ReleasesRead(a, i, a')
  }

  // ---- Consequences of the invariant ----

  lemma {:induction false} TotalsUpdate(s: State, i: nat, t: Thread)
    requires i < |s.threads|
    ensures var ts := s.threads[i := t];
            && Total(ts, Reads) == Total(s.threads, Reads) - Reads(s.threads[i]) + Reads(t)
            && Total(ts, Counted) == Total(s.threads, Counted) - Counted(s.threads[i]) + Counted(t)
  {
    TotalUpdate(s.threads, Reads, i, t);
    TotalUpdate(s.threads, Counted, i, t);
  }

  lemma {:induction false} ReadsBounded(s: State, i: nat)
    requires i < |s.threads|
    ensures 0 <= Reads(s.threads[i]) <= TotalReads(s)
  {
    TotalZero(s.threads, Reads);
  }

  /** The thread whose id is in the word is the only one holding anything. */
  lemma {:induction false} OwnerIsAlone(s: State, i: nat)
    requires Inv(s) && i < |s.threads| && Owner(s.flag) == s.threads[i].id
    ensures forall j | 0 <= j < |s.threads| && j != i ::
              s.threads[j].held == [] && !Counting(s.threads[j]) && Counted(s.threads[j]) == 0
    ensures TotalReads(s) == Reads(s.threads[i])
    ensures Total(s.threads, Counted) == Counted(s.threads[i])
  {
    forall j | 0 <= j < |s.threads| && j != i
      ensures s.threads[j].held == [] && !Counting(s.threads[j]) && Counted(s.threads[j]) == 0
    {
      assert Ids(s)[j] != Ids(s)[i] && Ids(s)[i] != 0;
      assert ThreadOk(Owner(s.flag), s.granted, s.threads[j]);
    }
    TotalOnly(s.threads, Reads, i);
    TotalOnly(s.threads, Counted, i);
  }

  /** While no id is in the word no thread holds or is entering a write lock. */
  lemma {:induction false} NoOwnerNoWriter(s: State, j: nat)
    requires Inv(s) && Owner(s.flag) == 0 && j < |s.threads|
    ensures Writes(s.threads[j]) == 0 && !ReliesOnOwning(s.threads[j])
  {
    assert Ids(s)[j] != 0;
    assert ThreadOk(Owner(s.flag), s.granted, s.threads[j]);
  }

  /** An empty word means nobody holds anything. */
  lemma {:induction false} EmptyWordNobodyHolds(s: State, j: nat)
    requires Inv(s) && s.flag == EMPTY && j < |s.threads|
    ensures s.threads[j].held == [] && !Counting(s.threads[j]) && !ReliesOnOwning(s.threads[j])
  {
    NoOwnerNoWriter(s, j);
    ReadsBounded(s, j);
    CountAll(s.threads[j].held);
    assert ThreadOk(Owner(s.flag), s.granted, s.threads[j]);
  }

  // ---- The invariant is kept ----

  lemma {:induction false} StartInv(ids: seq<uint16>)
    requires DistinctNonZero(ids)
    ensures Inv(Start(ids))
  {
    var s := Start(ids);
    assert Ids(s) == ids;
    TotalNone(s.threads, Reads);
    TotalNone(s.threads, Counted);
  }

  /** The state after thread `i` becomes `t` and the shared fields take these values. */
  function Put(s: State, i: nat, flag: uint32, count: uint16, t: Thread): State
    requires i < |s.threads|
  {
    s.(flag := flag, count := count, threads := s.threads[i := t])
  }

  /** LockCount moves with the number it counts: by one, or not at all. */
  predicate CountMoves(count: uint16, count': uint16, d: int) {
    match d
    case 0 => count' == count
    case 1 => count' == Up16(count)
    case -1 => count' == Down16(count)
    case _ => false
  }

  lemma {:induction false} CountFollows(x: int, count: uint16, count': uint16, d: int)
    requires count == Wrap16(x) && CountMoves(count, count', d)
    ensures count' == Wrap16(x + d)
  {
  }

  /** One thread moves: it is enough that its own facts, the two counters and the other
      threads' assumptions fit the new shared fields. */
  lemma {:induction false} PutInv(s: State, i: nat, flag: uint32, count: uint16, t: Thread)
    requires Inv(s) && i < |s.threads| && t.id == s.threads[i].id
    requires ThreadOk(Owner(flag), s.granted, t)
    requires forall j | 0 <= j < |s.threads| && j != i :: ThreadOk(Owner(flag), s.granted, s.threads[j])
    requires Readers(flag) == Readers(s.flag) - Reads(s.threads[i]) + Reads(t)
    requires CountMoves(s.count, count, Counted(t) - Counted(s.threads[i]))
    requires Owner(flag) != 0 ==> Owner(flag) == Owner(s.flag) || Owner(flag) == t.id
    ensures Inv(Put(s, i, flag, count, t))
  {
    var s' := Put(s, i, flag, count, t);
    TotalsUpdate(s, i, t);
    CountFollows(Total(s.threads, Counted) + s.kept, s.count, count, Counted(t) - Counted(s.threads[i]));
    assert Ids(s') == Ids(s);
    assert t.id == Ids(s)[i];
  }

  lemma {:induction false} PutAbstract(s: State, i: nat, flag: uint32, count: uint16, t: Thread)
    requires i < |s.threads|
    ensures Abstract(Put(s, i, flag, count, t)) == Abstract(s)[i := Held(t)]
    ensures Held(t) == Held(s.threads[i]) ==> Abstract(Put(s, i, flag, count, t)) == Abstract(s)
  {
  }

  lemma {:induction false} WordUp(w: uint32)
    requires Readers(w) < 0xffff
    ensures Owner(Up32(w)) == Owner(w)
    ensures Readers(Up32(w)) == Readers(w) + 1
  {
  }

  lemma {:induction false} WordDown(w: uint32)
    requires Readers(w) > 0
    ensures Owner(Down32(w)) == Owner(w)
    ensures Readers(Down32(w)) == Readers(w) - 1
  {
  }

  /** What the thread's own facts become when it moves; `owner` and `granted` are the values
      before its step. */
  lemma {:induction false} LocalThread(owner: nat, granted: nat, t: Thread, t': Thread)
    requires ThreadOk(owner, granted, t) && t'.id == t.id && t'.held == t.held
    requires
      || (exists c :: MayCall(t, c) && t' == Entered(t, c))
      || (t'.target == t.target
          && match t.pc
             case WriteLoad => t'.pc == if owner == t.id then WriteCount(true) else WriteCas
             case UnlockCheck => t'.pc == UnlockDecrement
             case ReadLoad => t'.pc == if owner == t.id then ReadOwned else ReadSpin
             case ReadSpin => t'.pc.ReadCas? && t'.pc.expected <= 0xffff
             case ReadCas(_) => t'.pc == ReadSpin
             case _ => false)
    ensures ThreadOk(owner, granted, t') && Counted(t') == Counted(t)
  {
    if c :| MayCall(t, c) && t' == Entered(t, c) {
      if c == UnlockWrite {
        assert Writes(t) > 0;
      }
    }
  }

  /** Steps that touch neither the word nor what is held: calls, loads and failed exchanges. */
  predicate Local(s: State, a: Action)
    requires Enabled(s, a)
  {
    var t := s.threads[a.i];
    || a.Calls?
    || t.pc.WriteLoad? || t.pc.UnlockCheck? || t.pc.ReadLoad? || t.pc.ReadSpin?
    || (t.pc.WriteCas? && s.flag != EMPTY)
    || (t.pc.ReadCas? && s.flag != t.pc.expected)
  }

  lemma {:induction false} LocalStep(s: State, a: Action)
    requires Inv(s) && Enabled(s, a) && Local(s, a)
    ensures Inv(Apply(s, a)) && Abstract(Apply(s, a)) == Abstract(s)
  {
    var s', t := Apply(s, a), s.threads[a.i];
    var t' := s'.threads[a.i];
    if a.Accesses? && t.pc == WriteCas {
      assert s' == s;
    } else {
      if a.Calls? {
        assert MayCall(t, a.c) && t' == Entered(t, a.c);
      }
      LocalThread(Owner(s.flag), s.granted, t, t');
      assert s' == Put(s, a.i, s.flag, s.count, t');
      PutInv(s, a.i, s.flag, s.count, t');
      PutAbstract(s, a.i, s.flag, s.count, t');
    }
  }

  lemma {:induction false} ClaimThread(granted: nat, t: Thread)
    requires ThreadOk(0, granted, t) && t.pc == WriteCas && t.held == [] && t.id != 0
    ensures var t' := t.(pc := WriteCount(false), held := t.held + [Write]);
            && ThreadOk(t.id, granted, t') && Held(t) == Holding(0, 0) && Held(t') == Holding(1, 0)
            && Counted(t') == Counted(t) == 0 && Reads(t) == Reads(t') == 0
  {
    CountPush(t.held, Write, Write);
    CountPush(t.held, Write, Read);
  }

  lemma {:induction false} WordOfId(id: uint16)
    ensures Owner(id * 0x1_0000) == id && Readers(id * 0x1_0000) == 0
  {
  }

  /** With an empty word, the facts of every thread fit any owner field but its own id. */
  lemma {:induction false} EmptyWordFitsOwner(s: State, owner: nat, j: nat)
    requires Inv(s) && s.flag == EMPTY && j < |s.threads| && s.threads[j].id != owner
    ensures ThreadOk(owner, s.granted, s.threads[j])
  {
    EmptyWordNobodyHolds(s, j);
    assert ThreadOk(Owner(s.flag), s.granted, s.threads[j]);
  }

  lemma {:induction false} EmptyWordFitsClaim(s: State, i: nat, j: nat)
    requires Inv(s) && s.flag == EMPTY && i < |s.threads| && j < |s.threads| && i != j
    ensures ThreadOk(s.threads[i].id, s.granted, s.threads[j]) && Held(s.threads[j]) == Holding(0, 0)
  {
    assert Ids(s)[j] != Ids(s)[i];
    EmptyWordFitsOwner(s, s.threads[i].id, j);
    EmptyWordNobodyHolds(s, j);
  }

  /** The state after thread `i` has put `flag` into the empty word. */
  function Claimed(s: State, i: nat, flag: uint32): State
    requires i < |s.threads|
  {
    var t := s.threads[i];
    Put(s, i, flag, s.count, t.(pc := WriteCount(false), held := t.held + [Write]))
  }

  lemma {:induction false} ReadyToClaim(s: State, i: nat)
    requires Inv(s) && i < |s.threads| && s.threads[i].pc == WriteCas && s.flag == EMPTY
    ensures var t := s.threads[i]; ThreadOk(0, s.granted, t) && t.held == [] && t.id != 0
  {
    assert s.threads[i].id == Ids(s)[i];
    EmptyWordNobodyHolds(s, i);
    assert Owner(s.flag) == 0;
    assert ThreadOk(Owner(s.flag), s.granted, s.threads[i]);
  }

  lemma {:induction false} ClaimInv(s: State, i: nat, flag: uint32)
    requires Inv(s) && i < |s.threads| && s.threads[i].pc == WriteCas && s.flag == EMPTY
    requires Owner(flag) == s.threads[i].id && Readers(flag) == 0
    ensures Inv(Claimed(s, i, flag))
  {
    var t := s.threads[i];
    ReadyToClaim(s, i);
    ClaimThread(s.granted, t);
    forall j | 0 <= j < |s.threads| && j != i ensures ThreadOk(t.id, s.granted, s.threads[j]) {
      EmptyWordFitsClaim(s, i, j);
    }
    PutInv(s, i, flag, s.count, t.(pc := WriteCount(false), held := t.held + [Write]));
  }

  lemma {:induction false} ClaimAcquires(s: State, i: nat, flag: uint32)
    requires Inv(s) && i < |s.threads| && s.threads[i].pc == WriteCas && s.flag == EMPTY
    ensures AcquiresWrite(Abstract(s), i, Abstract(Claimed(s, i, flag)))
  {
    var t := s.threads[i];
    ReadyToClaim(s, i);
    ClaimThread(s.granted, t);
    forall j | 0 <= j < |s.threads| && j != i ensures Held(s.threads[j]) == Holding(0, 0) {
      EmptyWordFitsClaim(s, i, j);
    }
    PutAbstract(s, i, flag, s.count, t.(pc := WriteCount(false), held := t.held + [Write]));
  }

  lemma {:induction false} ClaimStep(s: State, i: nat)
    requires Inv(s) && i < |s.threads| && s.threads[i].pc == WriteCas && s.flag == EMPTY
    ensures Inv(Access(s, i)) && AcquiresWrite(Abstract(s), i, Abstract(Access(s, i)))
  {
    var flag: uint32 := s.threads[i].id * 0x1_0000;
    WordOfId(s.threads[i].id);
    assert Access(s, i) == Claimed(s, i, flag);
    ClaimInv(s, i, flag);
    ClaimAcquires(s, i, flag);
  }

  lemma {:induction false} WriteCountThread(granted: nat, t: Thread)
    requires t.pc.WriteCount? && ThreadOk(t.id, granted, t)
    ensures var t' := t.(pc := Idle, held := if t.pc.owned then t.held + [Write] else t.held);
            && ThreadOk(t.id, granted, t') && Counted(t') == Counted(t) + 1 == Writes(t') && Reads(t') == Reads(t)
            && Held(t') == if t.pc.owned then Held(t).(exclusive := Held(t).exclusive + 1) else Held(t)
  {
    CountPush(t.held, Write, Write);
    CountPush(t.held, Write, Read);
  }

  /** LockCount of an owned word: the owner's counted write depth plus the increments
      kept of granted shared reads, in 16 bits. */
  lemma {:induction false} OwnedCount(s: State, i: nat)
    requires Inv(s) && i < |s.threads| && Owner(s.flag) == s.threads[i].id
    ensures s.count == Wrap16(Counted(s.threads[i]) + s.kept)
  {
    OwnerIsAlone(s, i);
  }

  /** A thread moves and leaves the word as it is. */
  lemma {:induction false} KeepsWordInv(s: State, i: nat, count: uint16, t: Thread)
    requires Inv(s) && i < |s.threads| && t.id == s.threads[i].id
    requires ThreadOk(Owner(s.flag), s.granted, t) && Reads(t) == Reads(s.threads[i])
    requires CountMoves(s.count, count, Counted(t) - Counted(s.threads[i]))
    ensures Inv(Put(s, i, s.flag, count, t))
  {
    PutInv(s, i, s.flag, count, t);
  }

  /** Thread `i` after its increment of LockCount. */
  function WriteCounted(t: Thread): Thread
    requires t.pc.WriteCount?
  {
    t.(pc := Idle, held := if t.pc.owned then t.held + [Write] else t.held)
  }

  lemma {:induction false} WriteCountInv(s: State, i: nat)
    requires Inv(s) && i < |s.threads| && s.threads[i].pc.WriteCount?
    ensures Inv(Put(s, i, s.flag, Up16(s.count), WriteCounted(s.threads[i])))
  {
    assert ThreadOk(Owner(s.flag), s.granted, s.threads[i]);
    WriteCountThread(s.granted, s.threads[i]);
    KeepsWordInv(s, i, Up16(s.count), WriteCounted(s.threads[i]));
  }

  lemma {:induction false} WriteCountStep(s: State, i: nat)
    requires Inv(s) && i < |s.threads| && s.threads[i].pc.WriteCount?
    ensures Inv(Access(s, i))
    ensures s.threads[i].pc.owned ==> AcquiresWrite(Abstract(s), i, Abstract(Access(s, i)))
    ensures !s.threads[i].pc.owned ==> Abstract(Access(s, i)) == Abstract(s)
  {
    var t := s.threads[i];
    assert ThreadOk(Owner(s.flag), s.granted, t);
    WriteCountThread(s.granted, t);
    assert Access(s, i) == Put(s, i, s.flag, Up16(s.count), WriteCounted(t));
    WriteCountInv(s, i);
    PutAbstract(s, i, s.flag, Up16(s.count), WriteCounted(t));
    OwnerIsAlone(s, i);
  }

  lemma {:induction false} WritesBounded(s: State, i: nat)
    requires i < |s.threads|
    ensures 0 <= Writes(s.threads[i]) <= TotalWrites(s)
  {
    TotalZero(s.threads, Writes);
  }

  /** A stack whose bottom is a write hold has a write hold. */
  lemma {:induction false} BottomCounts(held: seq<Kind>)
    requires held != []
    ensures Count(held, held[0]) >= 1
  {
    if |held| > 1 {
      BottomCounts(Pop(held));
    } else {
      assert Pop(held) == [];
    }
  }

  /** The outermost unlock with no granted shared read finds, by nesting, an emptied stack. */
  lemma {:induction false} DecrementThread(granted: nat, t: Thread)
    requires t.pc == UnlockDecrement && ThreadOk(t.id, granted, t)
    ensures Writes(t) >= 1
    ensures var stored := Writes(t) - 1 + granted == 0;
            var t' := t.(pc := if stored then UnlockStore else Idle, held := Pop(t.held));
            && ThreadOk(t.id, granted, t') && Counted(t') == Counted(t) - 1 && Reads(t') == Reads(t)
            && Held(t') == Held(t).(exclusive := Held(t).exclusive - 1)
  {
    var held' := Pop(t.held);
    assert Count(held', Write) == Count(t.held, Write) - 1;
    if held' != [] {
      assert held'[0] == t.held[0];
      BottomCounts(held');
    }
  }

  /** A count of at most 2^16 reaches zero in 16 bits only when it reaches zero. */
  lemma {:induction false} LastCountIff(count: nat)
    requires 1 <= count <= 0x1_0000
    ensures Down16(Wrap16(count)) == 0 <==> count == 1
  {
  }

  lemma {:induction false} DecrementReachesZeroIff(s: State, i: nat)
    requires Inv(s) && Bounded(s) && i < |s.threads| && s.threads[i].pc == UnlockDecrement
    ensures Owner(s.flag) == s.threads[i].id && Writes(s.threads[i]) >= 1
    ensures Down16(s.count) == 0 <==> Writes(s.threads[i]) - 1 + s.granted == 0
  {
    assert ThreadOk(Owner(s.flag), s.granted, s.threads[i]);
    OwnedCount(s, i);
    WritesBounded(s, i);
    LastCountIff(Writes(s.threads[i]) + s.kept);
  }

  lemma {:induction false} DecrementStep(s: State, i: nat)
    requires Inv(s) && Bounded(s) && i < |s.threads| && s.threads[i].pc == UnlockDecrement
    ensures Inv(Access(s, i)) && ReleasesWrite(Abstract(s), i, Abstract(Access(s, i)))
    ensures Access(s, i).threads[i].pc == UnlockStore <==> Writes(s.threads[i]) == 1 && s.granted == 0
  {
    var t := s.threads[i];
    DecrementReachesZeroIff(s, i);
    DecrementThread(s.granted, t);
    var t' := t.(pc := if Writes(t) - 1 + s.granted == 0 then UnlockStore else Idle, held := Pop(t.held));
    assert Access(s, i) == Put(s, i, s.flag, Down16(s.count), t');
    KeepsWordInv(s, i, Down16(s.count), t');
    PutAbstract(s, i, s.flag, Down16(s.count), t');
  }

  lemma {:induction false} StoreStep(s: State, i: nat)
    requires Inv(s) && i < |s.threads| && s.threads[i].pc == UnlockStore
    ensures Inv(Access(s, i)) && Abstract(Access(s, i)) == Abstract(s)
  {
    var t := s.threads[i];
    var t' := t.(pc := Idle);
    assert ThreadOk(Owner(s.flag), s.granted, t);
    OwnerIsAlone(s, i);
    assert Ids(s)[i] == t.id;
    forall j | 0 <= j < |s.threads| && j != i ensures ThreadOk(0, s.granted, s.threads[j]) {
      assert ThreadOk(Owner(s.flag), s.granted, s.threads[j]);
      assert Ids(s)[j] != Ids(s)[i];
    }
    PutInv(s, i, EMPTY, s.count, t');
    PutAbstract(s, i, EMPTY, s.count, t');
  }

  lemma {:induction false} OwnedReadThread(granted: nat, t: Thread)
    requires t.pc == ReadOwned && ThreadOk(t.id, granted, t)
    ensures var t' := t.(pc := Idle, held := t.held + [Read]);
            && ThreadOk(t.id, granted, t') && Counted(t') == Counted(t)
            && Held(t') == Held(t).(shared := Held(t).shared + 1)
  {
    CountPush(t.held, Read, Write);
    CountPush(t.held, Read, Read);
    if granted == 0 {
      assert t.held != [];
    }
  }

  /** A thread counts itself in as a reader, in a word with room for it. */
  lemma {:induction false} ReadInv(s: State, i: nat, t: Thread)
    requires Inv(s) && i < |s.threads| && t.id == s.threads[i].id && ThreadOk(Owner(s.flag), s.granted, t)
    requires Reads(t) == Reads(s.threads[i]) + 1 && Counted(t) == Counted(s.threads[i])
    requires TotalReads(s.(threads := s.threads[i := t])) <= 0xffff
    ensures Inv(Put(s, i, Up32(s.flag), s.count, t))
  {
    TotalsUpdate(s, i, t);
    WordUp(s.flag);
    PutInv(s, i, Up32(s.flag), s.count, t);
  }

  lemma {:induction false} OwnedReadStep(s: State, i: nat)
    requires Inv(s) && i < |s.threads| && s.threads[i].pc == ReadOwned && Bounded(Access(s, i))
    ensures Inv(Access(s, i)) && AcquiresRead(Abstract(s), i, Abstract(Access(s, i)))
  {
    var t := s.threads[i];
    var t' := t.(pc := Idle, held := t.held + [Read]);
    assert ThreadOk(Owner(s.flag), s.granted, t);
    OwnedReadThread(s.granted, t);
    assert Access(s, i) == Put(s, i, Up32(s.flag), s.count, t');
    ReadInv(s, i, t');
    PutAbstract(s, i, Up32(s.flag), s.count, t');
    OwnerIsAlone(s, i);
  }

  lemma {:induction false} SharedReadThread(granted: nat, t: Thread)
    requires t.pc.ReadCas? && ThreadOk(0, granted, t)
    ensures var t' := t.(pc := ReadCount, held := t.held + [Read]);
            && ThreadOk(0, granted, t') && Counted(t') == Counted(t)
            && Held(t') == Held(t).(shared := Held(t).shared + 1)
  {
    CountPush(t.held, Read, Write);
    CountPush(t.held, Read, Read);
  }

  lemma {:induction false} SharedReadStep(s: State, i: nat)
    requires Inv(s) && i < |s.threads| && s.threads[i].pc.ReadCas? && s.flag == s.threads[i].pc.expected
    requires Bounded(Access(s, i))
    ensures Inv(Access(s, i)) && AcquiresRead(Abstract(s), i, Abstract(Access(s, i)))
  {
    var t := s.threads[i];
    var t' := t.(pc := ReadCount, held := t.held + [Read]);
    assert ThreadOk(Owner(s.flag), s.granted, t);
    SharedReadThread(s.granted, t);
    assert Access(s, i) == Put(s, i, Up32(s.flag), s.count, t');
    ReadInv(s, i, t');
    PutAbstract(s, i, Up32(s.flag), s.count, t');
    forall j: nat | j < |s.threads| ensures Writes(s.threads[j]) == 0 {
      NoOwnerNoWriter(s, j);
    }
  }

  /** Nobody holds or enters a write lock while a reader is counting, so LockCount shows only what is
      kept of the readers' increments. */
  lemma {:induction false} CountingCount(s: State, i: nat)
    requires Inv(s) && i < |s.threads| && Counting(s.threads[i])
    ensures Owner(s.flag) == 0 && Total(s.threads, Counted) == 0 && s.count == Wrap16(s.kept)
  {
    assert ThreadOk(Owner(s.flag), s.granted, s.threads[i]);
    forall j: nat | j < |s.threads| ensures Counted(s.threads[j]) == 0 {
      NoOwnerNoWriter(s, j);
    }
    TotalNone(s.threads, Counted);
  }

  lemma {:induction false} CountLoadStep(s: State, i: nat)
    requires Inv(s) && i < |s.threads| && s.threads[i].pc == ReadCount
    ensures Inv(Access(s, i)) && Abstract(Access(s, i)) == Abstract(s)
  {
    var t' := s.threads[i].(pc := ReadStore(s.count));
    assert ThreadOk(Owner(s.flag), s.granted, s.threads[i]);
    CountingCount(s, i);
    assert Access(s, i) == Put(s, i, s.flag, s.count, t');
    PutInv(s, i, s.flag, s.count, t');
    PutAbstract(s, i, s.flag, s.count, t');
  }

  /** A reader's store disturbs no other thread. */
  lemma {:induction false} GrantFitsOthers(s: State, i: nat, j: nat)
    requires Inv(s) && i < |s.threads| && j < |s.threads| && i != j && Counting(s.threads[i])
    ensures ThreadOk(Owner(s.flag), s.granted + 1, s.threads[j])
  {
    assert ThreadOk(Owner(s.flag), s.granted, s.threads[i]);
    assert ThreadOk(Owner(s.flag), s.granted, s.threads[j]);
    assert Ids(s)[j] != 0;
  }

  lemma {:induction false} CountStoreThreads(s: State, i: nat)
    requires Inv(s) && i < |s.threads| && s.threads[i].pc.ReadStore?
    ensures var s' := Access(s, i);
            forall j | 0 <= j < |s.threads| :: ThreadOk(Owner(s.flag), s'.granted, s'.threads[j])
    ensures Ids(Access(s, i)) == Ids(s)
  {
    assert ThreadOk(Owner(s.flag), s.granted, s.threads[i]);
    forall j | 0 <= j < |s.threads| && j != i ensures ThreadOk(Owner(s.flag), s.granted + 1, s.threads[j]) {
      GrantFitsOthers(s, i, j);
    }
    assert Ids(s)[i] != 0;
  }

  /** The stored value is at most the reads granted, this one included. */
  lemma {:induction false} StoreFits(s: State, i: nat)
    requires Inv(s) && i < |s.threads| && s.threads[i].pc.ReadStore? && Bounded(Access(s, i))
    ensures s.threads[i].pc.loaded <= s.granted
    ensures Up16(s.threads[i].pc.loaded) == Wrap16(s.threads[i].pc.loaded + 1)
  {
    assert ThreadOk(Owner(s.flag), s.granted, s.threads[i]);
    TotalZero(Access(s, i).threads, Writes);
  }

  lemma {:induction false} CountStoreStep(s: State, i: nat)
    requires Inv(s) && i < |s.threads| && s.threads[i].pc.ReadStore? && Bounded(Access(s, i))
    ensures Inv(Access(s, i)) && Abstract(Access(s, i)) == Abstract(s)
  {
    var s', t := Access(s, i), s.threads[i];
    var t' := t.(pc := Idle);
    CountStoreThreads(s, i);
    CountingCount(s, i);
    TotalsUpdate(s, i, t');
    StoreFits(s, i);
    PutAbstract(s, i, s.flag, s.count, t');
    assert Abstract(s') == Abstract(Put(s, i, s.flag, s.count, t'));
  }

  lemma {:induction false} ReadReleaseThread(owner: nat, granted: nat, t: Thread)
    requires t.pc == ReadRelease && ThreadOk(owner, granted, t)
    ensures Reads(t) >= 1
    ensures var t' := t.(pc := Idle, held := Pop(t.held));
            && ThreadOk(owner, granted, t') && Counted(t') == Counted(t)
            && Held(t') == Held(t).(shared := Held(t).shared - 1)
  {
    var held' := Pop(t.held);
    assert Count(held', Read) == Count(t.held, Read) - 1;
    if held' != [] {
      assert held'[0] == t.held[0];
    }
  }

  lemma {:induction false} ReadReleaseStep(s: State, i: nat)
    requires Inv(s) && i < |s.threads| && s.threads[i].pc == ReadRelease
    ensures Inv(Access(s, i)) && ReleasesRead(Abstract(s), i, Abstract(Access(s, i)))
  {
    var t, s' := s.threads[i], Access(s, i);
    var t' := t.(pc := Idle, held := Pop(t.held));
    assert ThreadOk(Owner(s.flag), s.granted, t);
    ReadReleaseThread(Owner(s.flag), s.granted, t);
    ReadsBounded(s, i);
    WordDown(s.flag);
    PutInv(s, i, s'.flag, s.count, t');
    PutAbstract(s, i, s'.flag, s.count, t');
  }

  /** Every step of every thread keeps the invariant and is a step of the abstract lock. */
  lemma {:induction false} StepRefines(s: State, s': State)
    requires Inv(s) && Step(s, s') && Bounded(s) && Bounded(s')
    ensures Inv(s') && AbstractStep(Abstract(s), Abstract(s'))
  {
    var a :| Enabled(s, a) && s' == Apply(s, a);
    if Local(s, a) {
      LocalStep(s, a);
    } else {
      match s.threads[a.i].pc
      case WriteCas => ClaimStep(s, a.i);
      case WriteCount(_) => WriteCountStep(s, a.i);
      case UnlockDecrement => DecrementStep(s, a.i);
      case UnlockStore => StoreStep(s, a.i);
      case ReadOwned => OwnedReadStep(s, a.i);
      case ReadCas(_) => SharedReadStep(s, a.i);
      case ReadCount => CountLoadStep(s, a.i);
      case ReadStore(_) => CountStoreStep(s, a.i);
      case ReadRelease => ReadReleaseStep(s, a.i);
    }
  }
}
