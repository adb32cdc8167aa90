/**
 * Broadcasts running concurrently. Each holds the table lock shared while it walks the table;
 * joining and leaving take the lock exclusively, so neither happens during a broadcast.
 */
module Broadcast {
  import opened SessionTable

  /** `Active`: walking, with `next` the next index. `Done`: finished, having found `audience`. */
  datatype Cast<K> = Waiting | Active(next: nat) | Done(audience: seq<K>)

  /** `log` lists the SendPacket calls in order: the session, and the broadcast it came from. */
  datatype State<K> = State(table: seq<K>, casts: seq<Cast<K>>, log: seq<(K, nat)>)

  datatype Move<K> = Join(key: K) | Leave(i: nat) | Begin(b: nat) | Send(b: nat) | Finish(b: nat)

  predicate LockFree<K>(s: State<K>) {
    forall b | 0 <= b < |s.casts| :: !s.casts[b].Active?
  }

  predicate Enabled<K(==)>(s: State<K>, m: Move<K>) {
    match m
    case Join(k) => LockFree(s) && k !in s.table
    case Leave(i) => LockFree(s) && i < |s.table|
    case Begin(b) => b < |s.casts| && s.casts[b].Waiting?
    case Send(b) => b < |s.casts| && s.casts[b].Active? && s.casts[b].next < |s.table|
    case Finish(b) => b < |s.casts| && s.casts[b].Active? && s.casts[b].next == |s.table|
  }

  function Apply<K(==)>(s: State<K>, m: Move<K>): State<K>
    requires Enabled(s, m)
  {
    match m
    case Join(k) => s.(table := s.table + [k])
    case Leave(i) => s.(table := SwapRemove(s.table, i))
    case Begin(b) => s.(casts := s.casts[b := Active(0)])
    case Send(b) =>
      var next := s.casts[b].next;
      s.(casts := s.casts[b := Active(next + 1)], log := s.log + [(s.table[next], b)])
    case Finish(b) => s.(casts := s.casts[b := Done(s.table)])
  }

  ghost predicate Step<K(!new)>(s: State<K>, s': State<K>) {
    exists m :: Enabled(s, m) && s' == Apply(s, m)
  }

  ghost predicate StepsTo<K(!new)>(n: nat, ss: seq<State<K>>, k: nat)
    requires k < |ss|
  {
    if k == 0 then ss[0] == State([], seq(n, _ => Waiting), [])
    else Step(ss[k - 1], ss[k])
  }

  /** A run of n broadcasts and any joining and leaving, from an empty table. */
  ghost predicate Run<K(!new)>(n: nat, ss: seq<State<K>>) {
    |ss| > 0 && forall k: nat | k < |ss| :: StepsTo(n, ss, k)
  }

  function Sent<K(==)>(log: seq<(K, nat)>, k: K, b: nat): nat {
    multiset(log)[(k, b)]
  }

  /** What broadcast `b` has sent so far: once to each session it has passed, nothing to others. */
  ghost predicate CastOk<K(!new)>(s: State<K>, b: nat)
    requires b < |s.casts|
  {
    match s.casts[b]
    case Waiting => forall k: K :: Sent(s.log, k, b) == 0
    case Active(next) => next <= |s.table| && forall k: K :: Sent(s.log, k, b) == if k in s.table[..next] then 1 else 0
    case Done(audience) => forall k: K :: Sent(s.log, k, b) == if k in audience then 1 else 0
  }

  ghost predicate Inv<K(!new)>(s: State<K>) {
    && Distinct(s.table)
    && (forall b | 0 <= b < |s.casts| :: CastOk(s, b))
    && (forall e <- s.log :: e.1 < |s.casts|)
  }

  lemma {:induction false} SentPush<K>(log: seq<(K, nat)>, k: K, b: nat, k': K, b': nat)
    ensures Sent(log + [(k, b)], k', b') == Sent(log, k', b') + if k == k' && b == b' then 1 else 0
  {
  }

  lemma {:induction false} SendKeepsInv<K(!new)>(s: State<K>, b: nat)
    requires Inv(s) && Enabled(s, Send(b))
    ensures Inv(Apply(s, Send(b)))
  {
    var s' := Apply(s, Send(b));
    var next := s.casts[b].next;
    var key := s.table[next];
    forall c | 0 <= c < |s'.casts| ensures CastOk(s', c) {
      assert CastOk(s, c);
      if c == b {
        assert s.table[..next + 1] == s.table[..next] + [key];
        assert key !in s.table[..next];
      }
      forall k: K ensures Sent(s'.log, k, c) == Sent(s.log, k, c) + if key == k && b == c then 1 else 0 {
        SentPush(s.log, key, b, k, c);
      }
    }
  }

  lemma {:induction false} OtherMovesKeepInv<K(!new)>(s: State<K>, m: Move<K>)
    requires Inv(s) && Enabled(s, m) && !m.Send?
    ensures Inv(Apply(s, m))
  {
    var s' := Apply(s, m);
    forall c | 0 <= c < |s'.casts| ensures CastOk(s', c) {
      assert CastOk(s, c);
      if m.Begin? && c == m.b {
        assert s.table[..0] == [];
      }
      if m.Finish? && c == m.b {
        assert s.table[..|s.table|] == s.table;
      }
    }
  }

  /** Joining adds one session behind the others; leaving takes out exactly the session at the given
      index and moves no other but the last; broadcasts leave the table as it is. */
  lemma {:induction false} TableChanges<K(!new)>(s: State<K>, m: Move<K>)
    requires Inv(s) && Enabled(s, m)
    ensures var s' := Apply(s, m);
            match m
            case Join(k) => s.table <= s'.table && multiset(s'.table) == multiset(s.table) + multiset{k}
            case Leave(i) =>
              && multiset(s'.table) == multiset(s.table) - multiset{s.table[i]} && s.table[i] !in s'.table
              && forall j | 0 <= j < |s'.table| && j != i :: s'.table[j] == s.table[j]
            case _ => s'.table == s.table
  {
    if m.Leave? {
      SwapRemoveMultiset(s.table, m.i);
    }
  }

  lemma {:induction false} RunPrefix<K(!new)>(n: nat, ss: seq<State<K>>)
    requires Run(n, ss)
    ensures if |ss| == 1 then ss[0] == State([], seq(n, _ => Waiting), [])
            else Run(n, ss[..|ss| - 1]) && Step(ss[|ss| - 2], ss[|ss| - 1])
  {
    assert StepsTo(n, ss, |ss| - 1);
    if |ss| > 1 {
      var prefix := ss[..|ss| - 1];
      forall k: nat | k < |prefix| ensures StepsTo(n, prefix, k) {
        assert StepsTo(n, ss, k);
      }
    }
  }

  lemma {:induction false} RunInv<K(!new)>(n: nat, ss: seq<State<K>>)
    requires Run(n, ss)
    ensures Inv(ss[|ss| - 1]) && |ss[|ss| - 1].casts| == n
  {
    RunPrefix(n, ss);
    if |ss| > 1 {
      RunInv(n, ss[..|ss| - 1]);
      var s := ss[|ss| - 2];
      var m :| Enabled(s, m) && ss[|ss| - 1] == Apply(s, m);
      match m
      case Send(b) => SendKeepsInv(s, b);
      case _ => OtherMovesKeepInv(s, m);
    }
  }

  /** How the table of an earlier position relates to a later state, if broadcast `b` was running
      there: it is still the table while `b` runs, and the audience of `b` from then on. */
  predicate FoundTable<K(==)>(table: seq<K>, s: State<K>, b: nat)
    requires b < |s.casts|
  {
    match s.casts[b]
    case Waiting => false
    case Active(_) => s.table == table
    case Done(audience) => audience == table
  }

  lemma {:induction false} StepKeepsFound<K(!new)>(table: seq<K>, s: State<K>, m: Move<K>, b: nat)
    requires Enabled(s, m) && b < |s.casts| && FoundTable(table, s, b)
    ensures FoundTable(table, Apply(s, m), b)
  {
  }

  /** Nobody joins or leaves while a broadcast runs: it finds one table, from begin to finish. */
  lemma {:induction false} AudienceThroughout<K(!new)>(n: nat, ss: seq<State<K>>, b: nat, i: nat)
    requires Run(n, ss) && b < n && i < |ss| && b < |ss[i].casts| && ss[i].casts[b].Active?
    ensures |ss[|ss| - 1].casts| == n && FoundTable(ss[i].table, ss[|ss| - 1], b)
  {
    RunInv(n, ss);
    if i < |ss| - 1 {
      var prefix := ss[..|ss| - 1];
      RunPrefix(n, ss);
      AudienceThroughout(n, prefix, b, i);
      var m :| Enabled(ss[|ss| - 2], m) && ss[|ss| - 1] == Apply(ss[|ss| - 2], m);
      StepKeepsFound(ss[i].table, ss[|ss| - 2], m, b);
    }
  }

  /** A finished broadcast called SendPacket exactly once for every session that was in the table at
      any moment `i` while it ran, and never for any other, whatever broadcasts ran beside it. */
  lemma {:induction false} FinishedCastReachedEachOnce<K(!new)>(n: nat, ss: seq<State<K>>, b: nat, i: nat, k: K)
    requires Run(n, ss) && b < n && i < |ss| && b < |ss[i].casts| && ss[i].casts[b].Active?
    requires var s := ss[|ss| - 1]; |s.casts| == n && s.casts[b].Done?
    ensures Sent(ss[|ss| - 1].log, k, b) == if k in ss[i].table then 1 else 0
  {
    RunInv(n, ss);
    AudienceThroughout(n, ss, b, i);
    assert CastOk(ss[|ss| - 1], b);
  }

  /** The broadcasts a session was sent, in the order of the calls. */
  function Received<K(==)>(log: seq<(K, nat)>, k: K): seq<nat> {
    if log == [] then []
    else Received(log[..|log| - 1], k) + if log[|log| - 1].0 == k then [log[|log| - 1].1] else []
  }

  lemma {:induction false} ReceivedCounts<K>(log: seq<(K, nat)>, k: K, b: nat)
    ensures multiset(Received(log, k))[b] == Sent(log, k, b)
  {
    if log != [] {
      var n := |log| - 1;
      ReceivedCounts(log[..n], k, b);
      assert log == log[..n] + [(log[n].0, log[n].1)];
      SentPush(log[..n], log[n].0, log[n].1, k, b);
    }
  }

  function AllCasts(n: nat): seq<nat> {
    seq(n, b requires 0 <= b => b)
  }

  lemma {:induction false} AllCastsCounts(n: nat, b: nat)
    ensures multiset(AllCasts(n))[b] == if b < n then 1 else 0
  {
    if n > 0 {
      AllCastsCounts(n - 1, b);
      assert AllCasts(n) == AllCasts(n - 1) + [n - 1];
    }
  }

  lemma {:induction false} NeverSent<K>(n: nat, log: seq<(K, nat)>, k: K, b: nat)
    requires (forall e <- log :: e.1 < n) && b >= n
    ensures Sent(log, k, b) == 0
  {
    assert (k, b) !in log;
  }

  lemma {:induction false} SameCounts(a: multiset<nat>, b: multiset<nat>)
    requires forall x: nat :: a[x] == b[x]
    ensures a == b
  {
    assert forall x <- a :: a[x] == b[x];
    assert forall x <- b :: a[x] == b[x];
  }

  /** Finished broadcasts leave a session that all of them found with each message exactly once. */
  lemma {:induction false} InvReceivedOnce<K(!new)>(s: State<K>, k: K)
    requires Inv(s)
    requires forall b | 0 <= b < |s.casts| :: s.casts[b].Done? && k in s.casts[b].audience
    ensures multiset(Received(s.log, k)) == multiset(AllCasts(|s.casts|))
  {
    var n := |s.casts|;
    forall b: nat ensures multiset(Received(s.log, k))[b] == multiset(AllCasts(n))[b] {
      ReceivedCounts(s.log, k, b);
      AllCastsCounts(n, b);
      if b < n {
        assert CastOk(s, b);
      } else {
        NeverSent(n, s.log, k, b);
      }
    }
    SameCounts(multiset(Received(s.log, k)), multiset(AllCasts(n)));
  }

  /** Once all n broadcasts are done, a session present during all of them has received every
      message exactly once, in some order. */
  lemma {:induction false} AllCastsReceivedOnce<K(!new)>(n: nat, ss: seq<State<K>>, k: K)
    requires Run(n, ss)
    requires var s := ss[|ss| - 1];
             |s.casts| == n && forall b | 0 <= b < n :: s.casts[b].Done? && k in s.casts[b].audience
    ensures multiset(Received(ss[|ss| - 1].log, k)) == multiset(AllCasts(n))
  {
    RunInv(n, ss);
    InvReceivedOnce(ss[|ss| - 1], k);
  }
}
