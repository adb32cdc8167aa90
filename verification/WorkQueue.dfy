/**
 * The work queues of the thread pool: three queues under one mutex and one condition variable,
 * fed by any number of producers and served by any number of workers. One step is one critical
 * section, one test of bRunning, or one spurious wake-up.
 */
module WorkQueue {
  import opened Options

  /** A worker tests bRunning, then takes the mutex and looks at DataQ, where it may block. */
  datatype Worker = AtLoopTest | AtQueue | Blocked | Exited

  datatype Queue = JobQ | JobQ2 | DataQ

  /** `consumed` is what the workers popped from DataQ, in order. */
  datatype Pool = Pool(
    jobs: seq<int>, jobs2: seq<int>, data: seq<int>, running: bool, workers: seq<Worker>, consumed: seq<int>)

  /** Add pushes and notifies one blocked worker, if there is one. */
  datatype Action =
    | Add(queue: Queue, item: int, wake: Option<nat>)
    | Work(i: nat)
    | SpuriousWake(i: nat)
    | CloseThread

  function Start(n: nat): Pool {
    Pool([], [], [], true, seq(n, _ => AtLoopTest), [])
  }

  predicate Notifies(workers: seq<Worker>, wake: Option<nat>) {
    match wake
    case Some(w) => w < |workers| && workers[w] == Blocked
    case None => forall j | 0 <= j < |workers| :: workers[j] != Blocked
  }

  function Woken(workers: seq<Worker>, wake: Option<nat>): (ws: seq<Worker>)
    ensures |ws| == |workers|
  {
    match wake
    case Some(w) => if w < |workers| then workers[w := AtQueue] else workers
    case None => workers
  }

  predicate Enabled(p: Pool, a: Action) {
    match a
    case Add(_, _, wake) => Notifies(p.workers, wake)
    case Work(i) => i < |p.workers| && (p.workers[i] == AtLoopTest || p.workers[i] == AtQueue)
    case SpuriousWake(i) => i < |p.workers| && p.workers[i] == Blocked
    case CloseThread => true
  }

  function Apply(p: Pool, a: Action): Pool
    requires Enabled(p, a)
  {
    match a
    case Add(JobQ, item, wake) => p.(jobs := p.jobs + [item], workers := Woken(p.workers, wake))
    case Add(JobQ2, item, wake) => p.(jobs2 := p.jobs2 + [item], workers := Woken(p.workers, wake))
    case Add(DataQ, item, wake) => p.(data := p.data + [item], workers := Woken(p.workers, wake))
    case Work(i) =>
      if p.workers[i] == AtLoopTest then p.(workers := p.workers[i := if p.running then AtQueue else Exited])
      else if p.data == [] then p.(workers := p.workers[i := Blocked])
      else p.(data := p.data[1..], consumed := p.consumed + [p.data[0]], workers := p.workers[i := AtLoopTest])
    case SpuriousWake(i) => p.(workers := p.workers[i := AtQueue])
    case CloseThread => p.(running := false)
  }

  /** The state after the enabled actions of a run; an action that is not enabled has no effect. */
  function Run(n: nat, acts: seq<Action>): Pool {
    if acts == [] then Start(n)
    else
      var p := Run(n, acts[..|acts| - 1]);
      if Enabled(p, acts[|acts| - 1]) then Apply(p, acts[|acts| - 1]) else p
  }

  predicate Legal(n: nat, acts: seq<Action>) {
    acts == [] || (Legal(n, acts[..|acts| - 1]) && Enabled(Run(n, acts[..|acts| - 1]), acts[|acts| - 1]))
  }

  /** The items a run adds to one queue, in order. */
  function Produced(acts: seq<Action>, q: Queue): seq<int> {
    if acts == [] then []
    else Produced(acts[..|acts| - 1], q) + Added(acts[|acts| - 1], q)
  }

  function Added(a: Action, q: Queue): seq<int> {
    if a.Add? && a.queue == q then [a.item] else []
  }

  // ---- FIFO, exactly once ----

  /** What the workers consumed, followed by what is queued, is what was added, in order. Work
      added to the other two queues is never taken by a worker. */
  lemma {:induction false} FifoExactlyOnce(n: nat, acts: seq<Action>)
    requires Legal(n, acts)
    ensures var p := Run(n, acts);
            && p.consumed + p.data == Produced(acts, DataQ)
            && p.jobs == Produced(acts, JobQ) && p.jobs2 == Produced(acts, JobQ2)
  {
    if acts != [] {
      FifoExactlyOnce(n, acts[..|acts| - 1]);
      StepKeepsOrder(Run(n, acts[..|acts| - 1]), acts[|acts| - 1]);
    }
  }

  lemma {:induction false} StepKeepsOrder(p: Pool, a: Action)
    requires Enabled(p, a)
    ensures var p' := Apply(p, a);
            && p'.consumed + p'.data == p.consumed + p.data + Added(a, DataQ)
            && p'.jobs == p.jobs + Added(a, JobQ) && p'.jobs2 == p.jobs2 + Added(a, JobQ2)
  {
    var p' := Apply(p, a);
    if a.Work? && p.workers[a.i] == AtQueue && p.data != [] {
      assert p.data == [p.data[0]] + p.data[1..];
    }
  }

  // ---- No lost wake-up ----

  function Unblocked(workers: seq<Worker>): nat {
    if workers == [] then 0
    else Unblocked(workers[..|workers| - 1]) + if workers[|workers| - 1] == Blocked then 0 else 1
  }

  lemma {:induction false} UnblockedUpdate(workers: seq<Worker>, i: nat, w: Worker)
    requires i < |workers|
    ensures Unblocked(workers[i := w]) ==
              Unblocked(workers) - (if workers[i] == Blocked then 0 else 1) + if w == Blocked then 0 else 1
  {
    var n := |workers| - 1;
    if i == n {
      assert workers[i := w][..n] == workers[..n];
    } else {
      assert workers[i := w][..n] == workers[..n][i := w];
      UnblockedUpdate(workers[..n], i, w);
    }
  }

  lemma {:induction false} UnblockedRange(workers: seq<Worker>)
    ensures Unblocked(workers) <= |workers|
    ensures (forall j | 0 <= j < |workers| :: workers[j] != Blocked) ==> Unblocked(workers) == |workers|
    ensures (forall j | 0 <= j < |workers| :: workers[j] == Blocked) ==> Unblocked(workers) == 0
  {
    if workers != [] {
      UnblockedRange(workers[..|workers| - 1]);
    }
  }

  function Min(a: nat, b: nat): nat { if a < b then a else b }

  lemma {:induction false} WokenEnough(workers: seq<Worker>, wake: Option<nat>)
    requires Notifies(workers, wake)
    ensures Unblocked(Woken(workers, wake)) >= Min(Unblocked(workers) + 1, |workers|)
  {
    match wake
    case Some(w) => UnblockedUpdate(workers, w, AtQueue);
    case None => UnblockedRange(workers);
  }

  /** At least as many workers are awake as there are queued items, or all of them are. */
  predicate AwakeEnough(p: Pool, n: nat) {
    && |p.workers| == n && Unblocked(p.workers) >= Min(|p.data|, n)
    && forall j | 0 <= j < n :: p.workers[j] != Exited
  }

  lemma {:induction false} StepKeepsAwake(p: Pool, a: Action, n: nat)
    requires AwakeEnough(p, n) && p.running && Enabled(p, a)
    ensures AwakeEnough(Apply(p, a), n)
  {
    match a
    case Add(_, _, wake) => WokenEnough(p.workers, wake);
    case Work(i) => UnblockedUpdate(p.workers, i, Apply(p, a).workers[i]);
    case SpuriousWake(i) => UnblockedUpdate(p.workers, i, AtQueue);
    case CloseThread =>
  }

  /** While bRunning holds enough workers are awake: no notification is lost, whichever queue it
      was meant for and however many wake-ups are spurious. */
  lemma {:induction false} NoLostWakeUp(n: nat, acts: seq<Action>)
    requires Legal(n, acts) && Run(n, acts).running
    ensures AwakeEnough(Run(n, acts), n)
  {
    if acts != [] {
      NoLostWakeUp(n, acts[..|acts| - 1]);
      StepKeepsAwake(Run(n, acts[..|acts| - 1]), acts[|acts| - 1], n);
    }
  }

  /** When every worker is blocked, every item ever added has been consumed, in order. */
  lemma {:induction false} AllBlockedMeansDrained(n: nat, acts: seq<Action>)
    requires n > 0 && Legal(n, acts) && Run(n, acts).running
    requires forall j | 0 <= j < |Run(n, acts).workers| :: Run(n, acts).workers[j] == Blocked
    ensures Run(n, acts).data == [] && Run(n, acts).consumed == Produced(acts, DataQ)
  {
    var p := Run(n, acts);
    NoLostWakeUp(n, acts);
    UnblockedRange(p.workers);
    FifoExactlyOnce(n, acts);
    assert p.consumed + [] == p.consumed;
  }

  // ---- Draining ----

  function Rank(w: Worker): nat {
    match w case AtLoopTest => 2 case AtQueue => 1 case Blocked | Exited => 0
  }

  function TotalRank(workers: seq<Worker>): nat {
    if workers == [] then 0 else TotalRank(workers[..|workers| - 1]) + Rank(workers[|workers| - 1])
  }

  lemma {:induction false} TotalRankUpdate(workers: seq<Worker>, i: nat, w: Worker)
    requires i < |workers|
    ensures TotalRank(workers[i := w]) == TotalRank(workers) - Rank(workers[i]) + Rank(w)
  {
    var n := |workers| - 1;
    if i == n {
      assert workers[i := w][..n] == workers[..n];
    } else {
      assert workers[i := w][..n] == workers[..n][i := w];
      TotalRankUpdate(workers[..n], i, w);
    }
  }

  /** An upper bound on the worker steps that can follow before every worker blocks. */
  function Effort(p: Pool): nat {
    3 * |p.data| + TotalRank(p.workers)
  }

  lemma {:induction false} WorkCostsEffort(p: Pool, i: nat)
    requires Enabled(p, Work(i))
    ensures Effort(Apply(p, Work(i))) < Effort(p)
  {
    TotalRankUpdate(p.workers, i, Apply(p, Work(i)).workers[i]);
  }

  predicate OnlyWork(acts: seq<Action>) {
    forall k | 0 <= k < |acts| :: acts[k].Work?
  }

  lemma {:induction false} WorkIsBounded(n: nat, acts: seq<Action>, more: seq<Action>)
    requires Legal(n, acts + more) && OnlyWork(more)
    ensures Legal(n, acts) && |more| + Effort(Run(n, acts + more)) <= Effort(Run(n, acts))
    ensures Run(n, acts + more).running == Run(n, acts).running
    ensures Produced(acts + more, DataQ) == Produced(acts, DataQ)
  {
    if more == [] {
      assert acts + more == acts;
    } else {
      var m := more[..|more| - 1];
      assert (acts + more)[..|acts + more| - 1] == acts + m;
      WorkIsBounded(n, acts, m);
      WorkCostsEffort(Run(n, acts + m), more[|more| - 1].i);
    }
  }

  /** Draining: if only workers step from here on, in any order, they all block after a bounded
      number of steps; by then every item added has been consumed, in order. */
  lemma {:induction false} WorkersDrainQueue(n: nat, acts: seq<Action>, more: seq<Action>)
    requires n > 0 && Legal(n, acts + more) && OnlyWork(more) && Run(n, acts).running
    ensures |more| <= Effort(Run(n, acts))
    ensures (forall i: nat :: !Enabled(Run(n, acts + more), Work(i))) ==>
              Run(n, acts + more).data == [] && Run(n, acts + more).consumed == Produced(acts, DataQ)
  {
    WorkIsBounded(n, acts, more);
    var p := Run(n, acts + more);
    NoLostWakeUp(n, acts + more);
    if forall i: nat :: !Enabled(p, Work(i)) {
      forall j: nat | j < n ensures p.workers[j] == Blocked {
        assert !Enabled(p, Work(j));
      }
      AllBlockedMeansDrained(n, acts + more);
    }
  }

  // ---- Closing ----

  /** All workers are inside the wait on an empty DataQ. */
  predicate Waiting(p: Pool) {
    p.data == [] && forall j | 0 <= j < |p.workers| :: p.workers[j] == Blocked || p.workers[j] == AtQueue
  }

  lemma {:induction false} StepKeepsWaiting(p: Pool, a: Action)
    requires Waiting(p) && Enabled(p, a) && (a.Add? ==> a.queue != DataQ)
    ensures Waiting(Apply(p, a))
  {
  }

  /** A worker that waits does not look at bRunning again before it gets an item: after the queue
      has run dry, neither closing, nor work for the other queues, nor spurious wake-ups ever let
      a worker exit. */
  lemma {:induction false} ClosingEndsNoWaitingWorker(n: nat, acts: seq<Action>, more: seq<Action>)
    requires Legal(n, acts + more) && Waiting(Run(n, acts))
    requires forall k | 0 <= k < |more| :: more[k].Add? ==> more[k].queue != DataQ
    ensures Waiting(Run(n, acts + more))
  {
    if more == [] {
      assert acts + more == acts;
    } else {
      var m := more[..|more| - 1];
      assert (acts + more)[..|acts + more| - 1] == acts + m;
      ClosingEndsNoWaitingWorker(n, acts, m);
      StepKeepsWaiting(Run(n, acts + m), more[|more| - 1]);
    }
  }

  function Count(workers: seq<Worker>, w: Worker): nat {
    if workers == [] then 0
    else Count(workers[..|workers| - 1], w) + if workers[|workers| - 1] == w then 1 else 0
  }

  lemma {:induction false} CountUpdate(workers: seq<Worker>, i: nat, x: Worker, w: Worker)
    requires i < |workers|
    ensures Count(workers[i := x], w) ==
              Count(workers, w) - (if workers[i] == w then 1 else 0) + if x == w then 1 else 0
  {
    var n := |workers| - 1;
    if i == n {
      assert workers[i := x][..n] == workers[..n];
    } else {
      assert workers[i := x][..n] == workers[..n][i := x];
      CountUpdate(workers[..n], i, x, w);
    }
  }

  lemma {:induction false} CountZeroIff(workers: seq<Worker>, w: Worker)
    ensures Count(workers, w) == 0 <==> forall j | 0 <= j < |workers| :: workers[j] != w
  {
    if workers != [] {
      CountZeroIff(workers[..|workers| - 1], w);
    }
  }

  /** The workers that have passed the test of bRunning and will not test it before the next item. */
  function Committed(p: Pool): nat {
    Count(p.workers, AtQueue) + Count(p.workers, Blocked)
  }

  /** While a worker is blocked there is a woken one for every queued item. */
  predicate ItemsClaimed(p: Pool) {
    Count(p.workers, Blocked) > 0 ==> |p.data| <= Count(p.workers, AtQueue)
  }

  lemma {:induction false} WakeCounts(workers: seq<Worker>, wake: Option<nat>)
    requires Notifies(workers, wake)
    ensures Count(Woken(workers, wake), AtQueue) + Count(Woken(workers, wake), Blocked)
            == Count(workers, AtQueue) + Count(workers, Blocked)
    ensures Count(Woken(workers, wake), Blocked) == 0
            || Count(Woken(workers, wake), AtQueue) == Count(workers, AtQueue) + 1
  {
    match wake
    case Some(w) =>
      CountUpdate(workers, w, AtQueue, AtQueue);
      CountUpdate(workers, w, AtQueue, Blocked);
    case None => CountZeroIff(workers, Blocked);
  }

  lemma {:induction false} MoveCounts(p: Pool, a: Action)
    requires Enabled(p, a) && (a.Work? || a.SpuriousWake?)
    ensures var x := Apply(p, a).workers[a.i];
            forall w :: Count(Apply(p, a).workers, w) ==
              Count(p.workers, w) - (if p.workers[a.i] == w then 1 else 0) + if x == w then 1 else 0
  {
    var x := Apply(p, a).workers[a.i];
    forall w ensures Count(Apply(p, a).workers, w) ==
              Count(p.workers, w) - (if p.workers[a.i] == w then 1 else 0) + if x == w then 1 else 0
    {
      CountUpdate(p.workers, a.i, x, w);
    }
  }

  lemma {:induction false} StepKeepsClaims(p: Pool, a: Action)
    requires ItemsClaimed(p) && Enabled(p, a)
    ensures ItemsClaimed(Apply(p, a))
  {
    match a
    case Add(_, _, wake) => WakeCounts(p.workers, wake);
    case Work(_) => MoveCounts(p, a);
    case SpuriousWake(_) => MoveCounts(p, a);
    case CloseThread =>
  }

  lemma {:induction false} RunClaims(n: nat, acts: seq<Action>)
    requires Legal(n, acts)
    ensures ItemsClaimed(Run(n, acts)) && |Run(n, acts).workers| == n
  {
    if acts == [] {
      CountZeroIff(Start(n).workers, Blocked);
    } else {
      RunClaims(n, acts[..|acts| - 1]);
      StepKeepsClaims(Run(n, acts[..|acts| - 1]), acts[|acts| - 1]);
    }
  }

  /** After closing, only an item added to DataQ changes by how much the workers that wait for an
      item outnumber the items. */
  lemma {:induction false} StepKeepsDeficit(p: Pool, a: Action)
    requires !p.running && Enabled(p, a)
    ensures !Apply(p, a).running
    ensures Committed(Apply(p, a)) - |Apply(p, a).data| == Committed(p) - |p.data| - |Added(a, DataQ)|
  {
    match a
    case Add(_, _, wake) => WakeCounts(p.workers, wake);
    case Work(_) => MoveCounts(p, a);
    case SpuriousWake(_) => MoveCounts(p, a);
    case CloseThread =>
  }

  lemma {:induction false} DeficitStays(n: nat, acts: seq<Action>, more: seq<Action>)
    requires Legal(n, acts + more) && !Run(n, acts).running
    ensures var p, q := Run(n, acts), Run(n, acts + more);
            !q.running && Committed(q) - |q.data| == Committed(p) - |p.data| - |Produced(more, DataQ)|
  {
    if more == [] {
      assert acts + more == acts;
    } else {
      var m, a := more[..|more| - 1], more[|more| - 1];
      assert (acts + more)[..|acts + more| - 1] == acts + m;
      DeficitStays(n, acts, m);
      StepKeepsDeficit(Run(n, acts + m), a);
    }
  }

  /** Closing, exactly: whatever else happens after bRunning was cleared, once no worker can step any
      more all workers have left their loops if and only if those that waited for an item when it
      was cleared were no more than the items queued then and added since. */
  lemma {:induction false} ClosedPoolEndsIff(n: nat, acts: seq<Action>, more: seq<Action>)
    requires Legal(n, acts + more) && !Run(n, acts).running
    requires forall i: nat :: !Enabled(Run(n, acts + more), Work(i))
    ensures |Run(n, acts + more).workers| == n
    ensures (forall j | 0 <= j < n :: Run(n, acts + more).workers[j] == Exited)
            <==> Committed(Run(n, acts)) <= |Run(n, acts).data| + |Produced(more, DataQ)|
  {
    var q := Run(n, acts + more);
    DeficitStays(n, acts, more);
    RunClaims(n, acts + more);
    forall j: nat | j < n ensures q.workers[j] == Blocked || q.workers[j] == Exited {
      assert !Enabled(q, Work(j));
    }
    CountZeroIff(q.workers, AtQueue);
    CountZeroIff(q.workers, Blocked);
  }

  /** Seen from the workers at the moment of closing: none is blocked, and those at the queue are no
      more than the items. */
  lemma {:induction false} EndsIffNoneBlocked(n: nat, acts: seq<Action>)
    requires Legal(n, acts)
    ensures var p := Run(n, acts);
            Committed(p) <= |p.data|
            <==> (forall j | 0 <= j < |p.workers| :: p.workers[j] != Blocked) && Count(p.workers, AtQueue) <= |p.data|
  {
    RunClaims(n, acts);
    CountZeroIff(Run(n, acts).workers, Blocked);
  }

  lemma {:induction false} Extends(n: nat, acts: seq<Action>, a: Action)
    requires Legal(n, acts) && Enabled(Run(n, acts), a)
    ensures Legal(n, acts + [a]) && Run(n, acts + [a]) == Apply(Run(n, acts), a)
  {
    assert (acts + [a])[..|acts|] == acts;
  }

  /** A run after which closing strands a worker: two block, one item comes and wakes one of them. */
  lemma {:induction false} ClosingStrandsWorker(n: nat, item: int) returns (acts: seq<Action>)
    requires n >= 2
    ensures Legal(n, acts) && !Run(n, acts).running && Run(n, acts).data == [item]
    ensures |Run(n, acts).workers| == n && Run(n, acts).workers[0] == AtQueue && Run(n, acts).workers[1] == Blocked
    ensures Committed(Run(n, acts)) > |Run(n, acts).data|
  {
    acts := BlocksWorker(n, [], 0);
    acts := BlocksWorker(n, acts, 1);
    Extends(n, acts, Add(DataQ, item, Some(0)));
    acts := acts + [Add(DataQ, item, Some(0))];
    Extends(n, acts, CloseThread);
    acts := acts + [CloseThread];
    CountZeroIff(Run(n, acts).workers, Blocked);
    EndsIffNoneBlocked(n, acts);
  }

  lemma {:induction false} BlocksWorker(n: nat, acts: seq<Action>, i: nat) returns (acts': seq<Action>)
    requires Legal(n, acts)
    requires var p := Run(n, acts); p.running && p.data == [] && i < |p.workers| && p.workers[i] == AtLoopTest
    ensures Legal(n, acts') && Run(n, acts') == Run(n, acts).(workers := Run(n, acts).workers[i := Blocked])
  {
    Extends(n, acts, Work(i));
    Extends(n, acts + [Work(i)], Work(i));
    acts' := acts + [Work(i)] + [Work(i)];
  }

  // ---- The object ----

  class Thread {
    var jopQ: seq<int>
    var jopQ2: seq<int>
    var dataQ: seq<int>
    var bRunning: bool
    /** The progress of the worker threads, and what they printed. */
    var workers: seq<Worker>
    var consumed: seq<int>
    /** Every item ever added to dataQ. */
    ghost var added: seq<int>

    ghost function Now(): Pool
      reads this
    {
      Pool(jopQ, jopQ2, dataQ, bRunning, workers, consumed)
    }

    /** Items leave in the order they came, each once; no wake-up is lost while it runs; and a worker
        blocks only when every item is claimed. */
    ghost predicate Valid()
      reads this
    {
      consumed + dataQ == added && (bRunning ==> AwakeEnough(Now(), |workers|)) && ItemsClaimed(Now())
    }

    constructor (n: nat)
      ensures Valid() && added == [] && Now() == Start(n)
    {
      jopQ, jopQ2, dataQ, bRunning := [], [], [], true;
      workers, consumed, added := seq(n, _ => AtLoopTest), [], [];
      new;
      CountZeroIff(workers, Blocked);
    }

    method AddWork(func: int) returns (wake: Option<nat>)
      requires Valid()
      modifies this
      ensures Valid() && added == old(added)
      ensures Notifies(old(workers), wake) && Now() == Apply(old(Now()), Add(JobQ, func, wake))
    {
      jopQ := jopQ + [func];
      wake := NotifyOne();
      StepKeepsValid(old(Now()), Add(JobQ, func, wake));
    }

    method AddWork2(func: int) returns (wake: Option<nat>)
      requires Valid()
      modifies this
      ensures Valid() && added == old(added)
      ensures Notifies(old(workers), wake) && Now() == Apply(old(Now()), Add(JobQ2, func, wake))
    {
      jopQ2 := jopQ2 + [func];
      wake := NotifyOne();
      StepKeepsValid(old(Now()), Add(JobQ2, func, wake));
    }

    method AddData(data: int) returns (wake: Option<nat>)
      requires Valid()
      modifies this
      ensures Valid() && added == old(added) + [data]
      ensures Notifies(old(workers), wake) && Now() == Apply(old(Now()), Add(DataQ, data, wake))
    {
      dataQ, added := dataQ + [data], added + [data];
      wake := NotifyOne();
      StepKeepsValid(old(Now()), Add(DataQ, data, wake));
    }

    /** Wakes any one blocked worker, if there is one. */
    method NotifyOne() returns (wake: Option<nat>)
      modifies this`workers
      ensures Notifies(old(workers), wake) && workers == Woken(old(workers), wake)
    {
      if w: nat :| w < |workers| && workers[w] == Blocked {
        workers := workers[w := AtQueue];
        wake := Some(w);
      } else {
        wake := None;
      }
    }

    /** The next step of worker `i` in its loop. It brings all workers nearer to being blocked, and
        takes the oldest item not yet consumed if it takes any. */
    method WorkStep(i: nat)
      requires Valid() && Enabled(Now(), Work(i))
      modifies this
      ensures Valid() && added == old(added) && Effort(Now()) < old(Effort(Now()))
      ensures old(workers[i]) == AtQueue && |old(consumed)| < |added| ==> consumed == added[..|old(consumed)| + 1]
      ensures old(workers[i]) == AtLoopTest || |old(consumed)| == |added| ==> consumed == old(consumed)
      ensures Now() == Apply(old(Now()), Work(i))
    {
      if workers[i] == AtLoopTest {
        workers := workers[i := if bRunning then AtQueue else Exited];
      } else if dataQ == [] {
        workers := workers[i := Blocked];
      } else {
        consumed := consumed + [dataQ[0]];
        dataQ := dataQ[1..];
        workers := workers[i := AtLoopTest];
      }
      StepKeepsValid(old(Now()), Work(i));
      WorkCostsEffort(old(Now()), i);
    }

    method CloseThreads()
      requires Valid()
      modifies this
      ensures Valid() && added == old(added) && Now() == Apply(old(Now()), CloseThread)
    {
      bRunning := false;
    }
  }

  lemma {:induction false} StepKeepsValid(p: Pool, a: Action)
    requires Enabled(p, a) && ItemsClaimed(p) && (p.running ==> AwakeEnough(p, |p.workers|))
    ensures ItemsClaimed(Apply(p, a)) && (Apply(p, a).running ==> AwakeEnough(Apply(p, a), |p.workers|))
    ensures |Apply(p, a).workers| == |p.workers|
    ensures Apply(p, a).consumed + Apply(p, a).data == p.consumed + p.data + Added(a, DataQ)
  {
    StepKeepsClaims(p, a);
    StepKeepsOrder(p, a);
    if p.running {
      StepKeepsAwake(p, a, |p.workers|);
    }
  }
}
