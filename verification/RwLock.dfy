/**
 * The packed-word readers-writer lock as a step relation: every atomic access of the four
 * lock operations is one step, and any number of threads interleave their steps freely.
 * A thread spinning on a failed compare-exchange stays where it is.
 */
module RwLock {
  import opened Bits

  datatype Kind = Write | Read

  /** Where a thread stands inside a lock operation; the access named is its next one. */
  datatype Pc =
    | Idle                    // outside the lock's methods
    | WriteLoad               // TryWriteLock: load for the ownership test
    | WriteCas                // TryWriteLock: compare-exchange Empty with the own id
    | WriteCount(owned: bool) // TryWriteLock: LockCount++, re-entering iff `owned`
    | UnlockCheck             // TryWriteUnLock: load for the assertion that never fires
    | UnlockDecrement         // TryWriteUnLock: --LockCount
    | UnlockStore             // TryWriteUnLock: store Empty
    | ReadLoad                // TryReadLock: load for the ownership test
    | ReadOwned               // TryReadLock: fetch_add on an owned word
    | ReadSpin                // TryReadLock: load of the expected word
    | ReadCas(expected: nat)  // TryReadLock: compare-exchange the expected word
    | ReadCount               // TryReadLock: LockCount++, its load
    | ReadStore(loaded: uint16) // TryReadLock: LockCount++, its store
    | ReadRelease             // TryReadUnLock: fetch_sub

  /** The four operations. */
  datatype Call = LockWrite | UnlockWrite | LockRead | UnlockRead

  /** `held` is the stack of locks the thread holds; `target` is the stack its running (or
      last) call has to leave behind. */
  datatype Thread = Thread(id: uint16, pc: Pc, held: seq<Kind>, target: seq<Kind>)

  /** `granted` counts the shared reads granted so far, and `kept` those whose increment LockCount
      still shows: readers increment it side by side, and one store may undo others. The program
      stores neither. */
  datatype State = State(flag: uint32, count: uint16, granted: nat, kept: nat, threads: seq<Thread>)

  const EMPTY: uint32 := 0

  function Owner(w: uint32): nat { w / 0x1_0000 }

  function Readers(w: uint32): nat { w % 0x1_0000 }

  function Pop(held: seq<Kind>): seq<Kind> {
    if held == [] then [] else held[..|held| - 1]
  }

  function Top(held: seq<Kind>): Kind
    requires held != []
  {
    held[|held| - 1]
  }

  function Start(ids: seq<uint16>): State {
    State(EMPTY, 0, 0, 0, seq(|ids|, i requires 0 <= i < |ids| => Thread(ids[i], Idle, [], [])))
  }

  /** Nested unlocking: only the lock taken last may be released. */
  predicate MayCall(t: Thread, c: Call) {
    && t.pc == Idle
    && (c == UnlockWrite ==> t.held != [] && Top(t.held) == Write)
    && (c == UnlockRead ==> t.held != [] && Top(t.held) == Read)
  }

  function Entered(t: Thread, c: Call): Thread {
    match c
    case LockWrite => t.(pc := WriteLoad, target := t.held + [Write])
    case LockRead => t.(pc := ReadLoad, target := t.held + [Read])
    case UnlockWrite => t.(pc := UnlockCheck, target := Pop(t.held))
    case UnlockRead => t.(pc := ReadRelease, target := Pop(t.held))
  }

  function Invoke(s: State, i: nat, c: Call): State
    requires i < |s.threads|
  {
    s.(threads := s.threads[i := Entered(s.threads[i], c)])
  }

  function Access(s: State, i: nat): (s': State)
    requires i < |s.threads|
    ensures |s'.threads| == |s.threads|
  {
    var t := s.threads[i];
    match t.pc
    case Idle => s
    case WriteLoad =>
      s.(threads := s.threads[i := t.(pc := if Owner(s.flag) == t.id then WriteCount(true) else WriteCas)])
    case WriteCas =>
      if s.flag != EMPTY then s
      else s.(flag := t.id * 0x1_0000,
              threads := s.threads[i := t.(pc := WriteCount(false), held := t.held + [Write])])
    case WriteCount(owned) =>
      s.(count := Up16(s.count),
         threads := s.threads[i := t.(pc := Idle, held := if owned then t.held + [Write] else t.held)])
    case UnlockCheck =>
      s.(threads := s.threads[i := t.(pc := UnlockDecrement)])
    case UnlockDecrement =>
      var last := Down16(s.count);
      s.(count := last,
         threads := s.threads[i := t.(pc := if last == 0 then UnlockStore else Idle, held := Pop(t.held))])
    case UnlockStore =>
      s.(flag := EMPTY, threads := s.threads[i := t.(pc := Idle)])
    case ReadLoad =>
      s.(threads := s.threads[i := t.(pc := if Owner(s.flag) == t.id then ReadOwned else ReadSpin)])
    case ReadOwned =>
      s.(flag := Up32(s.flag),
         threads := s.threads[i := t.(pc := Idle, held := t.held + [Read])])
    case ReadSpin =>
      s.(threads := s.threads[i := t.(pc := ReadCas(Readers(s.flag)))])
    case ReadCas(expected) =>
      if s.flag != expected then s.(threads := s.threads[i := t.(pc := ReadSpin)])
      else s.(flag := Up32(s.flag),
              threads := s.threads[i := t.(pc := ReadCount, held := t.held + [Read])])
    case ReadCount =>
      s.(threads := s.threads[i := t.(pc := ReadStore(s.count))])
    case ReadStore(loaded) =>
      s.(count := Up16(loaded), granted := s.granted + 1, kept := loaded + 1,
         threads := s.threads[i := t.(pc := Idle)])
    case ReadRelease =>
      s.(flag := Down32(s.flag),
         threads := s.threads[i := t.(pc := Idle, held := Pop(t.held))])
  }

  /** One step of one thread: it calls a lock operation, or performs its next atomic access. */
  datatype Action = Calls(i: nat, c: Call) | Accesses(i: nat)

  predicate Enabled(s: State, a: Action) {
    && a.i < |s.threads|
    && (a.Calls? ==> MayCall(s.threads[a.i], a.c))
    && (a.Accesses? ==> s.threads[a.i].pc != Idle)
  }

  function Apply(s: State, a: Action): State
    requires Enabled(s, a)
  {
    match a
    case Calls(i, c) => Invoke(s, i, c)
    case Accesses(i) => Access(s, i)
  }

  ghost predicate Step(s: State, s': State) {
    exists a: Action :: Enabled(s, a) && s' == Apply(s, a)
  }

  // ---- Counting held locks ----

  function Count(held: seq<Kind>, k: Kind): nat {
    if held == [] then 0 else Count(Pop(held), k) + if Top(held) == k then 1 else 0
  }

  function Writes(t: Thread): int { Count(t.held, Write) }

  function Reads(t: Thread): int { Count(t.held, Read) }

  /** Write holds whose LockCount increment has been performed. */
  function Counted(t: Thread): int {
    Writes(t) - if t.pc == WriteCount(false) then 1 else 0
  }

  function Total(ts: seq<Thread>, f: Thread -> int): int {
    if ts == [] then 0 else Total(ts[..|ts| - 1], f) + f(ts[|ts| - 1])
  }

  function TotalReads(s: State): int { Total(s.threads, Reads) }

  function TotalWrites(s: State): int { Total(s.threads, Writes) }

  /** What a run is limited to: outstanding reads, and outstanding write holds together with all
      shared reads ever granted. */
  datatype Limits = Limits(maxReads: nat, maxCount: nat)

  /** As much as the two counters of the lock can take without giving up exclusion. */
  const CAPACITY := Limits(0xffff, 0x1_0000)

  predicate Within(limits: Limits, s: State) {
    TotalReads(s) <= limits.maxReads && TotalWrites(s) + s.granted <= limits.maxCount
  }

  predicate Bounded(s: State) {
    Within(CAPACITY, s)
  }

  /** Position `k` keeps the limits, and one step led there. */
  ghost predicate StepsTo(limits: Limits, ss: seq<State>, k: nat)
    requires k < |ss|
  {
    Within(limits, ss[k]) && (k > 0 ==> Step(ss[k - 1], ss[k]))
  }

  ghost predicate Path(limits: Limits, ss: seq<State>) {
    |ss| > 0 && forall k: nat | k < |ss| :: StepsTo(limits, ss, k)
  }

  ghost predicate Trace(limits: Limits, ids: seq<uint16>, ss: seq<State>) {
    Path(limits, ss) && ss[0] == Start(ids)
  }

  /** `s` occurs in some run of threads with these ids that keeps the limits. */
  ghost predicate ReachableWithin(limits: Limits, ids: seq<uint16>, s: State) {
    exists ss :: Trace(limits, ids, ss) && ss[|ss| - 1] == s
  }

  ghost predicate Reachable(ids: seq<uint16>, s: State) {
    ReachableWithin(CAPACITY, ids, s)
  }
}
