/**
 * Where the guarantees of broadcasts and replies end: with too little room in a send buffer some run
 * jams it, and the table lock is held for ever. So the room is exactly what is needed.
 */
module BroadcastLimits {
  import Broadcast
  import Sending

  import opened BroadcastJams
  import opened BroadcastSends
  import opened Wire

  // ---- A run that jams ----

  /** Session `k` is alone in the table. Of the first `i` broadcasts the chosen ones run, and of the
      first `a` they have called it. */
  ghost predicate CastsGathered<K(!new)>(cast: Broadcast.State<K>, chosen: seq<bool>, k: K, i: nat, a: nat) {
    && cast.table == [k] && |chosen| == |cast.casts| && i <= |chosen| && Running(cast.casts) == ChosenCount(chosen[..i])
    && forall b: nat | b < |cast.casts| ::
         cast.casts[b] == if !chosen[b] || b >= i then Broadcast.Waiting
                          else Broadcast.Active(if b < a then 1 else 0)
  }

  /** In a send buffer of `n` broadcasts and some replies, the broadcasts from the `a`-th on and the
      replies from the `j`-th on have not appended, the others `load` bytes, and nobody has flushed. */
  ghost predicate LoadGathered(out: Sending.Outgoing, n: nat, j: nat, a: nat, load: nat) {
    && !Sending.Jammed(out) && |out.buffer| == load
    && (forall b: nat | a <= b < n && b < |out.senders| :: out.senders[b] == Sending.Outside)
    && (forall b: nat | n + j <= b < |out.senders| :: out.senders[b] == Sending.Outside)
  }

  ghost predicate Gathered<K(!new)>(s: Server<K>, chosen: seq<bool>, k: K, i: nat, j: nat, a: nat, load: nat) {
    CastsGathered(s.cast, chosen, k, i, a) && LoadGathered(Buffer(s, k), |s.cast.casts|, j, a, load)
  }

  /** Session `k` is jammed, and blocks a broadcast if any may run. */
  ghost predicate Stuck<K(!new)>(chosen: seq<bool>, s: Server<K>, k: K) {
    Sending.Jammed(Buffer(s, k)) && (true in chosen ==> exists b: nat :: Blocked(s, k, b))
  }

  ghost predicate StuckOrGathered<K(!new)>(s: Server<K>, chosen: seq<bool>, k: K, j: nat, a: nat, load: nat) {
    Stuck(chosen, s, k) || Gathered(s, chosen, k, |chosen|, j, a, load)
  }

  /** A run in which `j` replies and the chosen of the first `a` broadcasts have gathered on session
      `k`, or one was stuck. */
  ghost predicate Gathers<K(!new)>(ps: seq<Packet>, q: Quota, moves: seq<Move<K>>, chosen: seq<bool>, k: K, j: nat,
                                   a: nat, load: nat) {
    Legal(ps, q, moves) && StuckOrGathered(Run(ps, q, moves), chosen, k, j, a, load)
  }

  lemma {:induction false} JoinGathers<K(!new)>(ps: seq<Packet>, q: Quota, chosen: seq<bool>, k: K)
    requires |chosen| == |ps|
    ensures Enabled(ps, q, Start(ps, q), Manage(Broadcast.Join(k)))
    ensures Gathered(Apply(ps, q, Start(ps, q), Manage(Broadcast.Join(k))), chosen, k, 0, 0, 0, 0)
  {
    NoneRunning<K>(|ps|);
  }

  lemma {:induction false} CountGrows(chosen: seq<bool>, i: nat)
    requires i < |chosen|
    ensures ChosenCount(chosen[..i + 1]) == ChosenCount(chosen[..i]) + if chosen[i] then 1 else 0
    ensures ChosenCount(chosen[..i + 1]) <= ChosenCount(chosen)
    decreases |chosen| - i
  {
    assert chosen[..i + 1][..i] == chosen[..i];
    if i + 1 < |chosen| {
      CountGrows(chosen, i + 1);
    } else {
      assert chosen[..i + 1] == chosen;
    }
  }

  lemma {:induction false} BeginGathers<K(!new)>(ps: seq<Packet>, q: Quota, s: Server<K>, chosen: seq<bool>, k: K,
                                                 i: nat)
    requires Gathered(s, chosen, k, i, 0, 0, 0) && i < |chosen| && ChosenCount(chosen) <= q.casts
    ensures !chosen[i] ==> Gathered(s, chosen, k, i + 1, 0, 0, 0)
    ensures chosen[i] ==>
              && Enabled(ps, q, s, Manage(Broadcast.Begin(i)))
              && Gathered(Apply(ps, q, s, Manage(Broadcast.Begin(i))), chosen, k, i + 1, 0, 0, 0)
  {
    CountGrows(chosen, i);
    RunningUpdate(s.cast.casts, i, Broadcast.Active(0));
  }

  lemma {:induction false} BeginAll<K(!new)>(ps: seq<Packet>, q: Quota, chosen: seq<bool>, k: K, i: nat)
    returns (moves: seq<Move<K>>)
    requires i <= |chosen| == |ps| && ChosenCount(chosen) <= q.casts && forall p <- ps :: WellFormed(p)
    ensures Legal(ps, q, moves) && Gathered(Run(ps, q, moves), chosen, k, i, 0, 0, 0)
  {
    if i == 0 {
      JoinGathers(ps, q, chosen, k);
      RunExtended(ps, q, [], Manage(Broadcast.Join(k)));
      moves := [] + [Manage(Broadcast.Join(k))];
    } else {
      moves := BeginAll(ps, q, chosen, k, i - 1);
      BeginGathers(ps, q, Run(ps, q, moves), chosen, k, i - 1);
      if chosen[i - 1] {
        RunExtended(ps, q, moves, Manage(Broadcast.Begin(i - 1)));
        moves := moves + [Manage(Broadcast.Begin(i - 1))];
      }
    }
  }

  /** One sender more appends, unless it finds no room. */
  lemma {:induction false} LoadGrows(out: Sending.Outgoing, n: nat, j: nat, a: nat, load: nat, call: Sending.Action)
    requires LoadGathered(out, n, j, a, load) && call.Append? && Sending.InMemory(call.packet) && a <= n
    requires call.i < |out.senders| && (call.i == n + j || (call.i == a < n))
    ensures Sending.Enabled(out, call)
    ensures var out' := Sending.Apply(out, call);
            Sending.Jammed(out')
            || LoadGathered(out', n, if call.i == n + j then j + 1 else j, if call.i == n + j then a else a + 1,
                            load + SizeOf(call.packet))
  {
  }

  lemma {:induction false} JustAhead<K(!new)>(s: Server<K>, k: K, b: nat)
    requires Sending.Jammed(Buffer(s, k)) && s.cast.table == [k]
    requires b < |s.cast.casts| && s.cast.casts[b] == Broadcast.Active(0)
    ensures Blocked(s, k, b)
  {
    assert s.cast.table[0..][0] == k;
  }

  /** A reply joins `j` others, from `load` bytes to `load'`. */
  lemma {:induction false} ReplyGathers<K(!new)>(ps: seq<Packet>, q: Quota, s: Server<K>, chosen: seq<bool>, k: K,
                                                 j: nat, j': nat, load: nat, load': nat, call: Sending.Action)
    requires Inv(ps, q, s) && Gathered(s, chosen, k, |chosen|, j, 0, load) && j < q.replies
    requires call.Append? && call.i == |ps| + j && Sending.InMemory(call.packet) && SizeOf(call.packet) == q.size
    requires j' == j + 1 && load' == load + q.size
    ensures Enabled(ps, q, s, Reply(k, call))
    ensures StuckOrGathered(Apply(ps, q, s, Reply(k, call)), chosen, k, j', 0, load')
  {
    assert SessionOk(ps, q, s, k);
    LoadGrows(Buffer(s, k), |ps|, j, 0, load, call);
    CalledBuffer(ps, q, s, k, call);
    var s' := Apply(ps, q, s, Reply(k, call));
    assert Buffer(s', k) == Sending.Apply(Buffer(s, k), call);
    if true in chosen && Sending.Jammed(Buffer(s', k)) {
      var b :| 0 <= b < |chosen| && chosen[b];
      JustAhead(s', k, b);
    }
  }

  lemma {:induction false} CastsMove<K(!new)>(cast: Broadcast.State<K>, chosen: seq<bool>, k: K, a: nat)
    requires CastsGathered(cast, chosen, k, |chosen|, a) && a < |chosen|
    ensures !chosen[a] ==> CastsGathered(cast, chosen, k, |chosen|, a + 1)
    ensures chosen[a] ==>
              && Broadcast.Enabled(cast, Broadcast.Send(a)) && cast.table[cast.casts[a].next] == k
              && CastsGathered(Broadcast.Apply(cast, Broadcast.Send(a)), chosen, k, |chosen|, a + 1)
  {
    if chosen[a] {
      RunningUpdate(cast.casts, a, Broadcast.Active(1));
    }
  }

  lemma {:induction false} AppendEnabled<K(!new)>(ps: seq<Packet>, q: Quota, s: Server<K>, chosen: seq<bool>, k: K,
                                                  j: nat, a: nat, load: nat)
    requires Inv(ps, q, s) && Gathered(s, chosen, k, |chosen|, j, a, load) && a < |chosen| && chosen[a]
    requires WellFormed(ps[a])
    ensures Enabled(ps, q, s, Append(a)) && Ahead(s, a) == k
  {
    assert SessionOk(ps, q, s, k);
    WholePayload(ps[a]);
    LoadGrows(Buffer(s, k), |ps|, j, a, load, Sending.Append(a, ps[a]));
  }

  lemma {:induction false} AppendedBuffer<K(!new)>(ps: seq<Packet>, q: Quota, s: Server<K>, b: nat)
    requires Inv(ps, q, s) && Enabled(ps, q, s, Append(b))
    ensures Buffer(Apply(ps, q, s, Append(b)), Ahead(s, b))
            == Sending.Apply(Buffer(s, Ahead(s, b)), Sending.Append(b, ps[b]))
    ensures Apply(ps, q, s, Append(b)).cast ==
              if Sending.Jammed(Sending.Apply(Buffer(s, Ahead(s, b)), Sending.Append(b, ps[b]))) then s.cast
              else Broadcast.Apply(s.cast, Broadcast.Send(b))
  {
    var k, call, s' := Ahead(s, b), Sending.Append(b, ps[b]), Apply(ps, q, s, Append(b));
    assert SessionOk(ps, q, s, k);
    CalledBuffer(ps, q, s, k, call);
    assert s'.calls == Called(s, k, call).calls && |s'.cast.casts| == |s.cast.casts| && s'.senders == s.senders;
  }

  /** Broadcast `a` joins the chosen ones before it, from `load` bytes to `load'`. */
  lemma {:induction false} AppendGathers<K(!new)>(ps: seq<Packet>, q: Quota, s: Server<K>, chosen: seq<bool>, k: K,
                                                  j: nat, a: nat, a': nat, load: nat, load': nat)
    requires Inv(ps, q, s) && Gathered(s, chosen, k, |chosen|, j, a, load) && a < |chosen| && chosen[a]
    requires WellFormed(ps[a]) && a' == a + 1 && load' == load + |ps[a]|
    ensures Enabled(ps, q, s, Append(a))
    ensures StuckOrGathered(Apply(ps, q, s, Append(a)), chosen, k, j, a', load')
  {
    AppendEnabled(ps, q, s, chosen, k, j, a, load);
    AppendedBuffer(ps, q, s, a);
    CastsMove(s.cast, chosen, k, a);
    WholePayload(ps[a]);
    assert SessionOk(ps, q, s, k);
    LoadGrows(Buffer(s, k), |ps|, j, a, load, Sending.Append(a, ps[a]));
    AfterAppend(s, Apply(ps, q, s, Append(a)), chosen, k, j, a, a', load');
  }

  lemma {:induction false} AfterAppend<K(!new)>(s: Server<K>, s': Server<K>, chosen: seq<bool>, k: K, j: nat, a: nat,
                                                a': nat, load': nat)
    requires CastsGathered(s.cast, chosen, k, |chosen|, a) && a < |chosen| && chosen[a] && a' == a + 1
    requires var cast' := Broadcast.Apply(s.cast, Broadcast.Send(a));
             if Sending.Jammed(Buffer(s', k)) then s'.cast == s.cast
             else s'.cast == cast' && CastsGathered(cast', chosen, k, |chosen|, a')
                  && LoadGathered(Buffer(s', k), |s'.cast.casts|, j, a', load')
    ensures StuckOrGathered(s', chosen, k, j, a', load')
  {
    if Sending.Jammed(Buffer(s', k)) {
      JustAhead(s', k, a);
    }
  }

  /** One reply more joins a run in which `j` have gathered. */
  lemma {:induction false} RunReplies<K(!new)>(ps: seq<Packet>, q: Quota, moves: seq<Move<K>>, chosen: seq<bool>, k: K,
                                               j: nat, j': nat, load: nat, load': nat, call: Sending.Action)
    returns (next: seq<Move<K>>)
    requires (forall x <- ps :: WellFormed(x)) && j < q.replies && Gathers(ps, q, moves, chosen, k, j, 0, load)
    requires call.Append? && call.i == |ps| + j && Sending.InMemory(call.packet) && SizeOf(call.packet) == q.size
    requires j' == j + 1 && load' == load + q.size
    ensures Gathers(ps, q, next, chosen, k, j', 0, load')
  {
    if Stuck(chosen, Run(ps, q, moves), k) {
      next := moves;
    } else {
      RunInv(ps, q, moves);
      ReplyGathers(ps, q, Run(ps, q, moves), chosen, k, j, j', load, load', call);
      RunExtended(ps, q, moves, Reply(k, call));
      next := moves + [Reply(k, call)];
    }
  }

  /** Broadcast `a` joins a run in which the chosen ones before it have gathered, if it is chosen. */
  lemma {:induction false} RunAppends<K(!new)>(ps: seq<Packet>, q: Quota, moves: seq<Move<K>>, chosen: seq<bool>, k: K,
                                               j: nat, a: nat, a': nat, load: nat, load': nat)
    returns (next: seq<Move<K>>)
    requires (forall p <- ps :: WellFormed(p)) && a < |chosen| == |ps| && Gathers(ps, q, moves, chosen, k, j, a, load)
    requires a' == a + 1 && load' == load + if chosen[a] then |ps[a]| else 0
    ensures Gathers(ps, q, next, chosen, k, j, a', load')
  {
    if Stuck(chosen, Run(ps, q, moves), k) {
      next := moves;
    } else if chosen[a] {
      RunInv(ps, q, moves);
      assert ps[a] in ps;
      AppendGathers(ps, q, Run(ps, q, moves), chosen, k, j, a, a', load, load');
      RunExtended(ps, q, moves, Append(a));
      next := moves + [Append(a)];
    } else {
      CastsMove(Run(ps, q, moves).cast, chosen, k, a);
      next := moves;
    }
  }

  lemma {:induction false} GathersAtFirst<K(!new)>(ps: seq<Packet>, q: Quota, chosen: seq<bool>, k: K)
    returns (moves: seq<Move<K>>)
    requires (forall x <- ps :: WellFormed(x)) && |chosen| == |ps| && ChosenCount(chosen) <= q.casts
    ensures Gathers(ps, q, moves, chosen, k, 0, 0, 0)
  {
    moves := BeginAll(ps, q, chosen, k, |chosen|);
  }

  lemma {:induction false} ReplyAll<K(!new)>(ps: seq<Packet>, q: Quota, chosen: seq<bool>, k: K, j: nat, p: seq<byte>)
    returns (moves: seq<Move<K>>)
    requires (forall x <- ps :: WellFormed(x)) && |chosen| == |ps| && ChosenCount(chosen) <= q.casts
    requires j <= q.replies && Sending.InMemory(p) && SizeOf(p) == q.size
    ensures Gathers(ps, q, moves, chosen, k, j, 0, Bytes(j, q.size))
  {
    if j == 0 {
      moves := GathersAtFirst(ps, q, chosen, k);
    } else {
      var before := ReplyAll(ps, q, chosen, k, j - 1, p);
      moves := RunReplies(ps, q, before, chosen, k, j - 1, j, Bytes(j - 1, q.size), Bytes(j, q.size),
                          Sending.Append(|ps| + (j - 1), p));
    }
  }

  lemma {:induction false} TotalGrows(ps: seq<Packet>, chosen: seq<bool>, a: nat)
    requires |chosen| == |ps| && a < |ps|
    ensures ChosenTotal(ps[..a + 1], chosen[..a + 1])
            == ChosenTotal(ps[..a], chosen[..a]) + if chosen[a] then |ps[a]| else 0
  {
    assert ps[..a + 1][..a] == ps[..a] && chosen[..a + 1][..a] == chosen[..a];
  }

  /** `load` is what the replies and the chosen of the first `a` broadcasts append. */
  lemma {:induction false} AppendAll<K(!new)>(ps: seq<Packet>, q: Quota, chosen: seq<bool>, k: K, a: nat, p: seq<byte>,
                                              load: nat)
    returns (moves: seq<Move<K>>)
    requires (forall x <- ps :: WellFormed(x)) && a <= |chosen| == |ps| && ChosenCount(chosen) <= q.casts
    requires Sending.InMemory(p) && SizeOf(p) == q.size
    requires load == Bytes(q.replies, q.size) + ChosenTotal(ps[..a], chosen[..a])
    ensures Gathers(ps, q, moves, chosen, k, q.replies, a, load)
  {
    if a == 0 {
      moves := ReplyAll(ps, q, chosen, k, q.replies, p);
    } else {
      TotalGrows(ps, chosen, a - 1);
      var before := Bytes(q.replies, q.size) + ChosenTotal(ps[..a - 1], chosen[..a - 1]);
      moves := AppendAll(ps, q, chosen, k, a - 1, p, before);
      moves := RunAppends(ps, q, moves, chosen, k, q.replies, a - 1, a, before, load);
    }
  }

  lemma {:induction false} ChoosesSome(ps: seq<Packet>, chosen: seq<bool>)
    requires |chosen| == |ps| && ChosenTotal(ps, chosen) > 0
    ensures true in chosen
  {
    if !chosen[|ps| - 1] {
      ChoosesSome(ps[..|ps| - 1], chosen[..|ps| - 1]);
    }
  }

  /** With too little room some run jams a session, and blocks a broadcast there if any may run. */
  lemma {:induction false} SomeRunSticks<K(!new)>(ps: seq<Packet>, q: Quota, k: K) returns (moves: seq<Move<K>>)
    requires (forall p <- ps :: WellFormed(p)) && !Room(ps, q)
    ensures Legal(ps, q, moves) && Sending.Jammed(Buffer(Run(ps, q, moves), k))
    ensures q.casts > 0 && ps != [] ==> exists b: nat :: Blocked(Run(ps, q, moves), k, b)
  {
    var chosen := MaxTotalReached(ps, q.casts);
    var p := Sending.PacketOfSize(q.size);
    assert ps[..|ps|] == ps && chosen[..|ps|] == chosen;
    moves := AppendAll(ps, q, chosen, k, |ps|, p, Bytes(q.replies, q.size) + ChosenTotal(ps, chosen));
    RunInv(ps, q, moves);
    NotOverfull(ps, q, Run(ps, q, moves), k);
    BytesProduct(q.replies, q.size);
    if q.casts > 0 && ps != [] {
      SomeTotal(ps, q.casts);
      ChoosesSome(ps, chosen);
    }
  }

  lemma {:induction false} SomeTotal(ps: seq<Packet>, m: nat)
    requires ps != [] && m > 0 && forall p <- ps :: WellFormed(p)
    ensures MaxTotal(ps, m) > 0
  {
    assert ps[|ps| - 1] in ps;
  }

  lemma {:induction false} NotOverfull<K(!new)>(ps: seq<Packet>, q: Quota, s: Server<K>, k: K)
    requires Inv(ps, q, s)
    ensures |Buffer(s, k).buffer| <= BUF_SIZE
  {
    assert SessionOk(ps, q, s, k);
    Sending.BufferBounded(Senders(ps, q), CallsOn(s, k));
  }

  // ---- Exactly enough room ----

  /** Up to the end of a run no buffer was found full. */
  ghost predicate FreeOfJams<K(!new)>(ps: seq<Packet>, q: Quota, moves: seq<Move<K>>) {
    NoJam(Run(ps, q, moves))
  }

  /** No run of these broadcasts and of replies ever finds a buffer full if and only if there is room
      for the largest packets of as many as may be under way at a time. */
  lemma {:induction false} NoJamIff<K(!new)>(ps: seq<Packet>, q: Quota, k: K)
    requires forall p <- ps :: WellFormed(p)
    ensures (forall moves: seq<Move<K>> {:trigger FreeOfJams(ps, q, moves)} | Legal(ps, q, moves) ::
              FreeOfJams(ps, q, moves)) <==> Room(ps, q)
  {
    if Room(ps, q) {
      forall moves: seq<Move<K>> {:trigger FreeOfJams(ps, q, moves)} | Legal(ps, q, moves)
        ensures FreeOfJams(ps, q, moves)
      {
        NeverJams(ps, q, moves);
      }
    } else {
      var moves := SomeRunSticks(ps, q, k);
      JamIsJam(Run(ps, q, moves), k);
      assert !FreeOfJams(ps, q, moves);
    }
  }

  lemma {:induction false} JamIsJam<K(!new)>(s: Server<K>, k: K)
    requires Sending.Jammed(Buffer(s, k))
    ensures !NoJam(s)
  {
  }

  lemma {:induction false} NobodyRuns<K>(casts: seq<Broadcast.Cast<K>>)
    requires Running(casts) == 0
    ensures forall b | 0 <= b < |casts| :: !casts[b].Active?
  {
    if casts != [] {
      NobodyRuns(casts[..|casts| - 1]);
    }
  }

  lemma {:induction false} FreeAlready<K(!new)>(ps: seq<Packet>, q: Quota, moves: seq<Move<K>>)
    requires (forall p <- ps :: WellFormed(p)) && (q.casts == 0 || ps == []) && Legal(ps, q, moves)
    ensures CanRelease(ps, q, moves)
  {
    RunInv(ps, q, moves);
    if q.casts == 0 {
      NobodyRuns(Run(ps, q, moves).cast.casts);
    }
    assert moves + [] == moves;
    assert Releases(ps, q, moves, []);
  }

  lemma {:induction false} FreeInTheEnd<K(!new)>(ps: seq<Packet>, q: Quota, moves: seq<Move<K>>)
    requires (forall p <- ps :: WellFormed(p)) && Room(ps, q) && Legal(ps, q, moves)
    ensures CanRelease(ps, q, moves)
  {
    var all := FinishAll(ps, q, moves, Effort(Run(ps, q, moves), |ps|));
    assert moves + all[|moves|..] == all;
    assert Releases(ps, q, moves, all[|moves|..]);
  }

  /** If there are broadcasts and they may run at all, every run can go on until the table lock is free
      if and only if there is that room. */
  lemma {:induction false} TableLockReleasedIff<K(!new)>(ps: seq<Packet>, q: Quota, k: K)
    requires forall p <- ps :: WellFormed(p)
    ensures (forall moves: seq<Move<K>> | Legal(ps, q, moves) :: CanRelease(ps, q, moves))
            <==> q.casts == 0 || ps == [] || Room(ps, q)
  {
    if q.casts == 0 || ps == [] || Room(ps, q) {
      forall moves: seq<Move<K>> | Legal(ps, q, moves) ensures CanRelease(ps, q, moves) {
        if Room(ps, q) {
          FreeInTheEnd(ps, q, moves);
        } else {
          FreeAlready(ps, q, moves);
        }
      }
    } else {
      var moves := SomeRunSticks(ps, q, k);
      var b: nat :| Blocked(Run(ps, q, moves), k, b);
      forall more: seq<Move<K>> ensures !Releases(ps, q, moves, more) {
        if Legal(ps, q, moves + more) {
          JamHoldsTableLock(ps, q, moves, more, k, b);
        }
      }
      assert !CanRelease(ps, q, moves);
    }
  }

  // ---- Chat broadcasts ----

  lemma {:induction false} EqualTotals(ps: seq<Packet>, m: nat, z: nat)
    requires forall p <- ps :: |p| == z
    ensures MaxTotal(ps, m) == Bytes(if m < |ps| then m else |ps|, z)
  {
    if ps != [] && m > 0 {
      var n := |ps| - 1;
      assert ps[n] in ps;
      EqualTotals(ps[..n], m, z);
      EqualTotals(ps[..n], m - 1, z);
    }
  }

  lemma {:induction false} ChatRoom(ps: seq<Packet>, q: Quota)
    requires q.casts <= |ps| && (forall p <- ps :: |p| == CHAT_SIZE) && q.size == USER_INFO_SIZE
    ensures q.replies == 0 ==> (Room(ps, q) <==> q.casts <= 7)
    ensures q.casts == 4 ==> (Room(ps, q) <==> q.replies <= 19)
  {
    EqualTotals(ps, q.casts, CHAT_SIZE);
    BytesProduct(q.casts, CHAT_SIZE);
  }

  /** Chat broadcasts beside replies to account requests: without replies seven at a time fit, eight
      may jam; with the four broadcasting threads of the server, 19 replies at a time to a session. */
  lemma {:induction false} ChatBroadcasts<K(!new)>(ps: seq<Packet>, q: Quota, k: K)
    requires q.casts <= |ps| && (forall p <- ps :: WellFormed(p) && |p| == CHAT_SIZE) && q.size == USER_INFO_SIZE
    ensures q.replies == 0 ==>
              ((forall moves: seq<Move<K>> {:trigger FreeOfJams(ps, q, moves)} | Legal(ps, q, moves) ::
                  FreeOfJams(ps, q, moves)) <==> q.casts <= 7)
    ensures q.casts == 4 ==>
              ((forall moves: seq<Move<K>> {:trigger FreeOfJams(ps, q, moves)} | Legal(ps, q, moves) ::
                  FreeOfJams(ps, q, moves)) <==> q.replies <= 19)
  {
    NoJamIff(ps, q, k);
    ChatRoom(ps, q);
  }
}
