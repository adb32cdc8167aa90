/**
 * When a sender can jam while broadcasts and replies run, and what that does to the table lock:
 * exactly how many of them a send buffer has room for, and that with room all broadcasts finish.
 */
module BroadcastJams {
  import Broadcast
  import Sending

  import opened BroadcastSends
  import opened Wire

  /** No session has a sender that waits for the mutex it holds. */
  ghost predicate NoJam<K(!new)>(s: Server<K>) {
    forall k: K :: !Sending.Jammed(Buffer(s, k))
  }

  // ---- The largest load ----

  /** What the chosen broadcasts append in all. */
  function ChosenTotal(ps: seq<Packet>, chosen: seq<bool>): nat
    requires |chosen| == |ps|
  {
    if ps == [] then 0
    else ChosenTotal(ps[..|ps| - 1], chosen[..|ps| - 1]) + if chosen[|ps| - 1] then |ps[|ps| - 1]| else 0
  }

  function ChosenCount(chosen: seq<bool>): nat {
    if chosen == [] then 0
    else ChosenCount(chosen[..|chosen| - 1]) + if chosen[|chosen| - 1] then 1 else 0
  }

  /** The most that `m` broadcasts append: the total of the `m` largest packets. */
  function MaxTotal(ps: seq<Packet>, m: nat): nat {
    if ps == [] || m == 0 then 0
    else
      var without, with := MaxTotal(ps[..|ps| - 1], m), MaxTotal(ps[..|ps| - 1], m - 1) + |ps[|ps| - 1]|;
      if without < with then with else without
  }

  /** No choice of at most `m` broadcasts appends more. */
  lemma {:induction false} MaxTotalIsMost(ps: seq<Packet>, m: nat, chosen: seq<bool>)
    requires |chosen| == |ps| && ChosenCount(chosen) <= m
    ensures ChosenTotal(ps, chosen) <= MaxTotal(ps, m)
  {
    if ps != [] {
      var n := |ps| - 1;
      if chosen[n] {
        MaxTotalIsMost(ps[..n], m - 1, chosen[..n]);
      } else {
        MaxTotalIsMost(ps[..n], m, chosen[..n]);
      }
    }
  }

  /** Some choice of at most `m` broadcasts appends that much. */
  lemma {:induction false} MaxTotalReached(ps: seq<Packet>, m: nat) returns (chosen: seq<bool>)
    ensures |chosen| == |ps| && ChosenCount(chosen) <= m && ChosenTotal(ps, chosen) == MaxTotal(ps, m)
  {
    if ps == [] || m == 0 {
      chosen := ChooseNone(ps);
    } else {
      var n := |ps| - 1;
      if MaxTotal(ps, m) == MaxTotal(ps[..n], m) {
        chosen := MaxTotalReached(ps[..n], m);
        ChoosePush(ps, chosen, false);
        chosen := chosen + [false];
      } else {
        chosen := MaxTotalReached(ps[..n], m - 1);
        ChoosePush(ps, chosen, true);
        chosen := chosen + [true];
      }
    }
  }

  lemma {:induction false} ChoosePush(ps: seq<Packet>, chosen: seq<bool>, last: bool)
    requires |ps| == |chosen| + 1
    ensures ChosenCount(chosen + [last]) == ChosenCount(chosen) + if last then 1 else 0
    ensures ChosenTotal(ps, chosen + [last])
            == ChosenTotal(ps[..|ps| - 1], chosen) + if last then |ps[|ps| - 1]| else 0
  {
    assert (chosen + [last])[..|chosen|] == chosen;
  }

  lemma {:induction false} ChooseNone(ps: seq<Packet>) returns (chosen: seq<bool>)
    ensures |chosen| == |ps| && ChosenCount(chosen) == 0 && ChosenTotal(ps, chosen) == 0
  {
    chosen := [];
    if ps != [] {
      chosen := ChooseNone(ps[..|ps| - 1]);
      ChoosePush(ps, chosen, false);
      chosen := chosen + [false];
    }
  }

  /** A send buffer has room for the largest packets of as many broadcasts as may run, and one reply
      of each that may be under way. */
  predicate Room(ps: seq<Packet>, q: Quota) {
    MaxTotal(ps, q.casts) + q.replies * q.size <= BUF_SIZE
  }

  // ---- The load of a send buffer ----

  /** The broadcasts that run. */
  function RunningCasts<K>(casts: seq<Broadcast.Cast<K>>): (chosen: seq<bool>)
    ensures |chosen| == |casts|
  {
    seq(|casts|, b requires 0 <= b < |casts| => casts[b].Active?)
  }

  lemma {:induction false} RunningCastsCount<K>(casts: seq<Broadcast.Cast<K>>)
    ensures ChosenCount(RunningCasts(casts)) == Running(casts)
  {
    if casts != [] {
      RunningCastsCount(casts[..|casts| - 1]);
      assert RunningCasts(casts)[..|casts| - 1] == RunningCasts(casts[..|casts| - 1]);
    }
  }

  lemma {:induction false} InFlightChosen(senders: seq<Sending.Sender>, ps: seq<Packet>, chosen: seq<bool>)
    requires |senders| == |ps| == |chosen|
    requires forall b | 0 <= b < |senders| && senders[b].Appended? :: chosen[b] && senders[b].size <= |ps[b]|
    ensures Sending.InFlight(senders) <= ChosenTotal(ps, chosen)
  {
    if senders != [] {
      var n := |senders| - 1;
      InFlightChosen(senders[..n], ps[..n], chosen[..n]);
    }
  }

  /** What sender `i` may have appended: a broadcast's packet, or a reply. */
  function MaxSize(ps: seq<Packet>, q: Quota, i: nat): nat {
    if i < |ps| then |ps[i]| else q.size
  }

  /** Every sender has appended at most that, and a broadcast only if it runs. */
  predicate SendersUnder(senders: seq<Sending.Sender>, chosen: seq<bool>, ps: seq<Packet>, q: Quota) {
    && |chosen| == |ps| <= |senders|
    && forall i | 0 <= i < |senders| && senders[i].Appended? ::
         senders[i].size <= MaxSize(ps, q, i) && (i < |ps| ==> chosen[i])
  }

  /** `n` times `z` bytes. */
  function Bytes(n: nat, z: nat): nat {
    if n == 0 then 0 else Bytes(n - 1, z) + z
  }

  lemma {:induction false} BytesProduct(n: nat, z: nat)
    ensures Bytes(n, z) == n * z
  {
    if n > 0 {
      BytesProduct(n - 1, z);
      OneMoreTimes(n - 1, z);
    }
  }

  lemma {:induction false} OneMoreTimes(x: nat, y: nat)
    ensures (x + 1) * y == x * y + y
  {
  }

  lemma {:induction false} InFlightUnder(senders: seq<Sending.Sender>, chosen: seq<bool>, ps: seq<Packet>, q: Quota)
    requires SendersUnder(senders, chosen, ps, q)
    ensures Sending.InFlight(senders) <= ChosenTotal(ps, chosen) + Bytes(|senders| - |ps|, q.size)
    decreases |senders|
  {
    if |senders| == |ps| {
      InFlightChosen(senders, ps, chosen);
    } else {
      InFlightUnder(senders[..|senders| - 1], chosen, ps, q);
    }
  }

  lemma {:induction false} SendersFit(ps: seq<Packet>, q: Quota, n: nat, calls: seq<Sending.Action>)
    requires CallsFit(ps, q, calls) && Sending.Legal(n, calls) && forall p <- ps :: WellFormed(p)
    ensures |Sending.Run(n, calls).senders| == n
    ensures forall i | 0 <= i < n && Sending.Run(n, calls).senders[i].Appended? ::
              Sending.Run(n, calls).senders[i].size <= MaxSize(ps, q, i)
  {
    if calls != [] {
      SendersFit(ps, q, n, calls[..|calls| - 1]);
      var call := calls[|calls| - 1];
      if call.i < |ps| {
        assert ps[call.i] in ps;
      }
    }
  }

  lemma {:induction false} SendersAreUnder<K(!new)>(ps: seq<Packet>, q: Quota, cast: Broadcast.State<K>, k: K,
                                                    calls: seq<Sending.Action>)
    requires BufferOk(ps, q, cast, k, calls) && |cast.casts| == |ps| && forall p <- ps :: WellFormed(p)
    ensures SendersUnder(Sending.Run(Senders(ps, q), calls).senders, RunningCasts(cast.casts), ps, q)
    ensures |Sending.Run(Senders(ps, q), calls).senders| == Senders(ps, q)
  {
    var senders := Sending.Run(Senders(ps, q), calls).senders;
    SendersFit(ps, q, Senders(ps, q), calls);
    forall c | 0 <= c < |ps| && senders[c].Appended? ensures cast.casts[c].Active? {
      assert SenderOk(cast, k, c, senders[c]);
    }
  }

  /** The broadcasts between append and flush on a session run, and so does the one about to append. */
  lemma {:induction false} OneMoreFits(senders: seq<Sending.Sender>, chosen: seq<bool>, ps: seq<Packet>, q: Quota,
                                       i: nat)
    requires SendersUnder(senders, chosen, ps, q) && |senders| == Senders(ps, q)
    requires i < |senders| && senders[i] == Sending.Outside && (i < |ps| ==> chosen[i])
    ensures Sending.InFlight(senders) + MaxSize(ps, q, i) <= ChosenTotal(ps, chosen) + Bytes(q.replies, q.size)
  {
    var next := senders[i := Sending.Appended(MaxSize(ps, q, i))];
    Sending.InFlightUpdate(senders, i, next[i]);
    InFlightUnder(next, chosen, ps, q);
  }

  lemma {:induction false} RoomForSender<K(!new)>(ps: seq<Packet>, q: Quota, cast: Broadcast.State<K>, k: K,
                                                  calls: seq<Sending.Action>, i: nat)
    requires BufferOk(ps, q, cast, k, calls) && |cast.casts| == |ps| && i < Senders(ps, q)
    requires Sending.Run(Senders(ps, q), calls).senders[i] == Sending.Outside && (i < |ps| ==> cast.casts[i].Active?)
    requires (forall p <- ps :: WellFormed(p)) && Room(ps, q) && Running(cast.casts) <= q.casts
    ensures |Sending.Run(Senders(ps, q), calls).buffer| + MaxSize(ps, q, i) <= BUF_SIZE
  {
    var chosen := RunningCasts(cast.casts);
    SendersAreUnder(ps, q, cast, k, calls);
    Sending.BufferBounded(Senders(ps, q), calls);
    OneMoreFits(Sending.Run(Senders(ps, q), calls).senders, chosen, ps, q, i);
    RunningCastsCount(cast.casts);
    MaxTotalIsMost(ps, q.casts, chosen);
    BytesProduct(q.replies, q.size);
  }

  lemma {:induction false} JamsIffNoRoom(out: Sending.Outgoing, b: nat, packet: seq<byte>)
    requires Sending.Enabled(out, Sending.Append(b, packet))
    ensures Sending.Jammed(Sending.Apply(out, Sending.Append(b, packet))) <==> |out.buffer| + SizeOf(packet) > BUF_SIZE
  {
  }

  lemma {:induction false} FitsBuffer<K(!new)>(ps: seq<Packet>, q: Quota, cast: Broadcast.State<K>, k: K,
                                               calls: seq<Sending.Action>, call: Sending.Action)
    requires BufferOk(ps, q, cast, k, calls) && |cast.casts| == |ps| && Running(cast.casts) <= q.casts
    requires call.Append? && Sending.Enabled(Sending.Run(Senders(ps, q), calls), call)
    requires SizeOf(call.packet) <= MaxSize(ps, q, call.i) && (call.i < |ps| ==> cast.casts[call.i].Active?)
    requires Sending.Run(Senders(ps, q), calls).senders[call.i] == Sending.Outside
    requires (forall p <- ps :: WellFormed(p)) && Room(ps, q)
    ensures !Sending.Jammed(Sending.Apply(Sending.Run(Senders(ps, q), calls), call))
  {
    RoomForSender(ps, q, cast, k, calls, call.i);
    JamsIffNoRoom(Sending.Run(Senders(ps, q), calls), call.i, call.packet);
  }

  lemma {:induction false} AppendFits<K(!new)>(ps: seq<Packet>, q: Quota, s: Server<K>, b: nat)
    requires Inv(ps, q, s) && Enabled(ps, q, s, Append(b))
    requires (forall p <- ps :: WellFormed(p)) && Room(ps, q)
    ensures !Sending.Jammed(Sending.Apply(Buffer(s, Ahead(s, b)), Sending.Append(b, ps[b])))
  {
    var k := Ahead(s, b);
    assert SessionOk(ps, q, s, k) && Buffer(s, k) == Sending.Run(Senders(ps, q), CallsOn(s, k));
    CallerOutside(ps, q, s, b, k);
    assert ps[b] in ps;
    FitsBuffer(ps, q, s.cast, k, CallsOn(s, k), Sending.Append(b, ps[b]));
  }

  lemma {:induction false} ReplyFits<K(!new)>(ps: seq<Packet>, q: Quota, s: Server<K>, k: K,
                                              call: Sending.Action)
    requires Inv(ps, q, s) && Enabled(ps, q, s, Reply(k, call)) && call.Append?
    requires (forall p <- ps :: WellFormed(p)) && Room(ps, q)
    ensures !Sending.Jammed(Sending.Apply(Buffer(s, k), call))
  {
    assert SessionOk(ps, q, s, k) && Buffer(s, k) == Sending.Run(Senders(ps, q), CallsOn(s, k));
    FitsBuffer(ps, q, s.cast, k, CallsOn(s, k), call);
  }

  lemma {:induction false} UnjammedCall<K(!new)>(ps: seq<Packet>, q: Quota, s: Server<K>, s': Server<K>, k: K,
                                                 call: Sending.Action)
    requires NoJam(s) && |s.cast.casts| == |s'.cast.casts| == |ps| && SessionOk(ps, q, s, k)
    requires s.senders == s'.senders == Senders(ps, q) && s'.calls == Called(s, k, call).calls
    requires Sending.Enabled(Buffer(s, k), call) && !Sending.Jammed(Sending.Apply(Buffer(s, k), call))
    ensures NoJam(s')
  {
    OneMoreCall(Senders(ps, q), CallsOn(s, k), call);
    forall j: K ensures !Sending.Jammed(Buffer(s', j)) {
      assert !Sending.Jammed(Buffer(s, j));
      assert CallsOn(s', j) == if j == k then CallsOn(s, k) + [call] else CallsOn(s, j);
    }
  }

  lemma {:induction false} AppendKeepsNoJam<K(!new)>(ps: seq<Packet>, q: Quota, s: Server<K>, b: nat)
    requires Inv(ps, q, s) && NoJam(s) && Enabled(ps, q, s, Append(b))
    requires !Sending.Jammed(Sending.Apply(Buffer(s, Ahead(s, b)), Sending.Append(b, ps[b])))
    ensures NoJam(Apply(ps, q, s, Append(b)))
  {
    assert SessionOk(ps, q, s, Ahead(s, b));
    UnjammedCall(ps, q, s, Apply(ps, q, s, Append(b)), Ahead(s, b), Sending.Append(b, ps[b]));
  }

  lemma {:induction false} FlushKeepsNoJam<K(!new)>(ps: seq<Packet>, q: Quota, s: Server<K>, b: nat)
    requires Inv(ps, q, s) && NoJam(s) && Enabled(ps, q, s, Flush(b))
    ensures NoJam(Apply(ps, q, s, Flush(b)))
  {
    assert SessionOk(ps, q, s, Behind(s, b));
    UnjammedCall(ps, q, s, Apply(ps, q, s, Flush(b)), Behind(s, b), Sending.Flush(b));
  }

  lemma {:induction false} ReplyKeepsNoJam<K(!new)>(ps: seq<Packet>, q: Quota, s: Server<K>, k: K, call: Sending.Action)
    requires Inv(ps, q, s) && NoJam(s) && Enabled(ps, q, s, Reply(k, call))
    requires call.Append? ==> !Sending.Jammed(Sending.Apply(Buffer(s, k), call))
    ensures NoJam(Apply(ps, q, s, Reply(k, call)))
  {
    assert SessionOk(ps, q, s, k);
    UnjammedCall(ps, q, s, Apply(ps, q, s, Reply(k, call)), k, call);
  }

  lemma {:induction false} ManageKeepsNoJam<K(!new)>(ps: seq<Packet>, q: Quota, s: Server<K>, move: Broadcast.Move<K>)
    requires NoJam(s) && Enabled(ps, q, s, Manage(move))
    ensures NoJam(Apply(ps, q, s, Manage(move)))
  {
    assert forall k: K :: Buffer(Apply(ps, q, s, Manage(move)), k) == Buffer(s, k);
  }

  lemma {:induction false} StepKeepsNoJam<K(!new)>(ps: seq<Packet>, q: Quota, s: Server<K>, a: Move<K>)
    requires Inv(ps, q, s) && NoJam(s) && Enabled(ps, q, s, a)
    requires (forall p <- ps :: WellFormed(p)) && Room(ps, q)
    ensures NoJam(Apply(ps, q, s, a))
  {
    match a
    case Manage(move) => ManageKeepsNoJam(ps, q, s, move);
    case Append(b) =>
      AppendFits(ps, q, s, b);
      AppendKeepsNoJam(ps, q, s, b);
    case Flush(b) => FlushKeepsNoJam(ps, q, s, b);
    case Reply(k, call) =>
      if call.Append? {
        ReplyFits(ps, q, s, k, call);
      }
      ReplyKeepsNoJam(ps, q, s, k, call);
  }

  /** With room in a buffer for one packet of each broadcast and reply that may run, none ever jams. */
  lemma {:induction false} NeverJams<K(!new)>(ps: seq<Packet>, q: Quota, moves: seq<Move<K>>)
    requires Legal(ps, q, moves)
    requires (forall p <- ps :: WellFormed(p)) && Room(ps, q)
    ensures Inv(ps, q, Run(ps, q, moves)) && NoJam(Run(ps, q, moves))
  {
    RunInv(ps, q, moves);
    if moves != [] {
      var prefix := moves[..|moves| - 1];
      NeverJams(ps, q, prefix);
      StepKeepsNoJam(ps, q, Run(ps, q, prefix), moves[|moves| - 1]);
    }
  }

  /** Session `k` is jammed, and broadcast `b` has still to call it, or to return from its call. */
  predicate Blocked<K(==)>(s: Server<K>, k: K, b: nat) {
    && Sending.Jammed(Buffer(s, k)) && Walking(s, b)
    && (k in s.cast.table[s.cast.casts[b].next..] || (InCall(s, b) && Behind(s, b) == k))
  }

  /** A broadcast that jams a session is blocked on it itself. */
  lemma {:induction false} JamBlocks<K(!new)>(ps: seq<Packet>, q: Quota, s: Server<K>, k: K)
    requires Inv(ps, q, s) && Jammed(Buffer(s, k), |ps|)
    ensures Blocked(s, k, Buffer(s, k).holder.value)
  {
    assert SessionOk(ps, q, s, k);
    var out := Buffer(s, k);
    assert SenderOk(s.cast, k, out.holder.value, out.senders[out.holder.value]);
  }

  lemma {:induction false} JamStays<K(!new)>(ps: seq<Packet>, q: Quota, s: Server<K>, a: Move<K>, k: K)
    requires Enabled(ps, q, s, a) && Sending.Jammed(Buffer(s, k)) && |ps| == |s.cast.casts|
    ensures CallsOn(Apply(ps, q, s, a), k) == CallsOn(s, k)
    ensures |Apply(ps, q, s, a).cast.casts| == |s.cast.casts| && Apply(ps, q, s, a).senders == s.senders
    ensures Buffer(Apply(ps, q, s, a), k) == Buffer(s, k)
  {
  }

  lemma {:induction false} ManageStays<K(!new)>(s: Server<K>, move: Broadcast.Move<K>, k: K, b: nat)
    requires Blocked(s, k, b) && Broadcast.Enabled(s.cast, move) && !move.Send? && (move.Finish? ==> !InCall(s, move.b))
    ensures var cast' := Broadcast.Apply(s.cast, move);
            cast'.table == s.cast.table && |cast'.casts| == |s.cast.casts| && cast'.casts[b] == s.cast.casts[b]
  {
    assert !Broadcast.LockFree(s.cast);
  }

  /** The walk of a blocked broadcast goes on at most up to the jammed session. */
  lemma {:induction false} TableStays<K(!new)>(ps: seq<Packet>, q: Quota, s: Server<K>, a: Move<K>, k: K, b: nat)
    requires Enabled(ps, q, s, a) && Blocked(s, k, b) && |ps| == |s.cast.casts|
    ensures var s' := Apply(ps, q, s, a);
            && s'.cast.table == s.cast.table && Walking(s', b) && s'.cast.casts[b].next >= s.cast.casts[b].next
            && (InCall(s, b) && Behind(s, b) == k ==> s'.cast.casts[b] == s.cast.casts[b])
            && forall j | s.cast.casts[b].next <= j < |s.cast.table| && s.cast.table[j] == k ::
                 s'.cast.casts[b].next <= j
  {
    match a
    case Manage(move) => ManageStays(s, move, k, b);
    case Append(c) =>
      if c == b {
        assert Ahead(s, b) != k;
      }
    case Flush(_) =>
    case Reply(_, _) =>
  }

  lemma {:induction false} BlockedStays<K(!new)>(ps: seq<Packet>, q: Quota, s: Server<K>, a: Move<K>, k: K, b: nat)
    requires Enabled(ps, q, s, a) && Blocked(s, k, b) && |ps| == |s.cast.casts|
    ensures Blocked(Apply(ps, q, s, a), k, b)
  {
    JamStays(ps, q, s, a, k);
    TableStays(ps, q, s, a, k, b);
    var s' := Apply(ps, q, s, a);
    var next, next' := s.cast.casts[b].next, s'.cast.casts[b].next;
    if k in s.cast.table[next..] {
      var j :| next <= j < |s.cast.table| && s.cast.table[j] == k;
      assert s'.cast.table[next'..][j - next'] == k;
    }
  }

  lemma {:induction false} RunOn<K(!new)>(ps: seq<Packet>, q: Quota, moves: seq<Move<K>>, a: Move<K>)
    requires Legal(ps, q, moves + [a])
    ensures Legal(ps, q, moves) && Enabled(ps, q, Run(ps, q, moves), a)
    ensures Run(ps, q, moves + [a]) == Apply(ps, q, Run(ps, q, moves), a)
  {
    assert (moves + [a])[..|moves|] == moves;
  }

  lemma {:induction false} Unsnoc<T>(xs: seq<T>, ys: seq<T>)
    requires ys != []
    ensures xs + ys == (xs + ys[..|ys| - 1]) + [ys[|ys| - 1]]
  {
  }

  /** A broadcast blocked on a jammed session is blocked for good, and with it the table lock is held
      for good. */
  lemma {:induction false} JamHoldsTableLock<K(!new)>(ps: seq<Packet>, q: Quota, moves: seq<Move<K>>,
                                                      more: seq<Move<K>>, k: K, b: nat)
    requires Legal(ps, q, moves + more) && forall p <- ps :: WellFormed(p)
    requires Blocked(Run(ps, q, moves), k, b)
    ensures Blocked(Run(ps, q, moves + more), k, b)
    ensures !Broadcast.LockFree(Run(ps, q, moves + more).cast)
  {
    if more == [] {
      assert moves + more == moves;
    } else {
      var rest, a := more[..|more| - 1], more[|more| - 1];
      Unsnoc(moves, more);
      RunOn(ps, q, moves + rest, a);
      JamHoldsTableLock(ps, q, moves, rest, k, b);
      RunInv(ps, q, moves + rest);
      BlockedStays(ps, q, Run(ps, q, moves + rest), a, k, b);
    }
  }

  /** So a broadcast that jams a session holds the table lock for good. */
  lemma {:induction false} JammingCastHoldsTableLock<K(!new)>(ps: seq<Packet>, q: Quota, moves: seq<Move<K>>,
                                                              more: seq<Move<K>>, k: K)
    requires Legal(ps, q, moves) && Legal(ps, q, moves + more) && forall p <- ps :: WellFormed(p)
    requires Jammed(Buffer(Run(ps, q, moves), k), |ps|)
    ensures !Broadcast.LockFree(Run(ps, q, moves + more).cast)
  {
    var s := Run(ps, q, moves);
    RunInv(ps, q, moves);
    JamBlocks(ps, q, s, k);
    JamHoldsTableLock(ps, q, moves, more, k, Buffer(s, k).holder.value);
  }

  // ---- Finishing ----

  /** A step that a running broadcast takes by itself. */
  predicate CastStep<K>(a: Move<K>) {
    a.Append? || a.Flush? || (a.Manage? && a.move.Finish?)
  }

  function CastSteps<K>(moves: seq<Move<K>>): nat {
    if moves == [] then 0 else CastSteps(moves[..|moves| - 1]) + if CastStep(moves[|moves| - 1]) then 1 else 0
  }

  /** How many steps broadcast `b` still has to take. */
  function Rank<K(==)>(s: Server<K>, b: nat): nat {
    if Walking(s, b) then 2 * (|s.cast.table| - s.cast.casts[b].next) + (if InCall(s, b) then 2 else 1) else 0
  }

  /** The steps that the first `n` broadcasts still have to take. */
  function Effort<K(==)>(s: Server<K>, n: nat): nat {
    if n == 0 then 0 else Effort(s, n - 1) + Rank(s, n - 1)
  }

  lemma {:induction false} EffortDrops<K>(s: Server<K>, s': Server<K>, b: nat, n: nat)
    requires forall c: nat | c < n && c != b :: Rank(s', c) == Rank(s, c)
    requires Rank(s', b) < Rank(s, b)
    ensures Effort(s', n) <= Effort(s, n)
    ensures b < n ==> Effort(s', n) < Effort(s, n)
  {
    if n > 0 {
      EffortDrops(s, s', b, n - 1);
    }
  }

  lemma {:induction false} OtherSenders(out: Sending.Outgoing, call: Sending.Action, c: nat)
    requires Sending.Enabled(out, call) && c != call.i
    ensures |Sending.Apply(out, call).senders| == |out.senders|
    ensures c < |out.senders| ==> Sending.Apply(out, call).senders[c] == out.senders[c]
  {
  }

  lemma {:induction false} CalledBuffer<K(!new)>(ps: seq<Packet>, q: Quota, s: Server<K>, k: K, call: Sending.Action)
    requires |ps| == |s.cast.casts| && s.senders == Senders(ps, q)
    requires SessionOk(ps, q, s, k) && Sending.Enabled(Buffer(s, k), call)
    ensures Buffer(Called(s, k, call), k) == Sending.Apply(Buffer(s, k), call)
    ensures forall j: K | j != k :: Buffer(Called(s, k, call), j) == Buffer(s, j)
  {
    OneMoreCall(Senders(ps, q), CallsOn(s, k), call);
  }

  /** A call leaves the other senders where they are. */
  lemma {:induction false} OtherPlaces<K(!new)>(ps: seq<Packet>, q: Quota, s: Server<K>, s': Server<K>, k: K,
                                                call: Sending.Action, j: K, c: nat)
    requires |ps| == |s.cast.casts| == |s'.cast.casts| && s.senders == s'.senders == Senders(ps, q)
    requires SessionOk(ps, q, s, k)
    requires Sending.Enabled(Buffer(s, k), call) && c != call.i && s'.calls == Called(s, k, call).calls
    ensures |Buffer(s', j).senders| == |Buffer(s, j).senders|
    ensures c < |Buffer(s, j).senders| ==> Buffer(s', j).senders[c] == Buffer(s, j).senders[c]
  {
    if j == k {
      OneMoreCall(Senders(ps, q), CallsOn(s, k), call);
      OtherSenders(Buffer(s, k), call, c);
    } else {
      assert CallsOn(s', j) == CallsOn(s, j);
    }
  }

  lemma {:induction false} OtherRanks<K(!new)>(ps: seq<Packet>, q: Quota, s: Server<K>, s': Server<K>, k: K,
                                               call: Sending.Action, c: nat)
    requires Inv(ps, q, s) && Sending.Enabled(Buffer(s, k), call) && c != call.i
    requires s'.calls == Called(s, k, call).calls && s'.cast.table == s.cast.table && s'.senders == s.senders
    requires |s'.cast.casts| == |s.cast.casts| && (c < |ps| ==> s'.cast.casts[c] == s.cast.casts[c])
    ensures Rank(s', c) == Rank(s, c)
  {
    assert SessionOk(ps, q, s, k);
    assert Walking(s', c) <==> Walking(s, c);
    if Walking(s, c) && s.cast.casts[c].next > 0 {
      assert Behind(s', c) == Behind(s, c);
      OtherPlaces(ps, q, s, s', k, call, Behind(s, c), c);
    }
  }

  lemma {:induction false} EffortSame<K>(s: Server<K>, s': Server<K>, n: nat)
    requires forall c: nat | c < n :: Rank(s', c) == Rank(s, c)
    ensures Effort(s', n) == Effort(s, n)
  {
    if n > 0 {
      EffortSame(s, s', n - 1);
    }
  }

  lemma {:induction false} ReplyCostsNothing<K(!new)>(ps: seq<Packet>, q: Quota, s: Server<K>, k: K,
                                                      call: Sending.Action)
    requires Inv(ps, q, s) && Enabled(ps, q, s, Reply(k, call))
    ensures Effort(Apply(ps, q, s, Reply(k, call)), |ps|) == Effort(s, |ps|)
  {
    var s' := Apply(ps, q, s, Reply(k, call));
    forall c: nat | c < |ps| ensures Rank(s', c) == Rank(s, c) {
      OtherRanks(ps, q, s, s', k, call, c);
    }
    EffortSame(s, s', |ps|);
  }

  lemma {:induction false} AppendCosts<K(!new)>(ps: seq<Packet>, q: Quota, s: Server<K>, b: nat)
    requires Inv(ps, q, s) && Enabled(ps, q, s, Append(b))
    requires !Sending.Jammed(Sending.Apply(Buffer(s, Ahead(s, b)), Sending.Append(b, ps[b])))
    ensures Effort(Apply(ps, q, s, Append(b)), |ps|) < Effort(s, |ps|)
  {
    var s' := Apply(ps, q, s, Append(b));
    forall c: nat | c < |ps| && c != b ensures Rank(s', c) == Rank(s, c) {
      OtherRanks(ps, q, s, s', Ahead(s, b), Sending.Append(b, ps[b]), c);
    }
    EffortDrops(s, s', b, |ps|);
  }

  lemma {:induction false} FlushEndsCall<K(!new)>(ps: seq<Packet>, q: Quota, s: Server<K>, b: nat)
    requires Inv(ps, q, s) && Enabled(ps, q, s, Flush(b))
    ensures !InCall(Apply(ps, q, s, Flush(b)), b)
  {
    var k := Behind(s, b);
    assert SessionOk(ps, q, s, k);
    CalledBuffer(ps, q, s, k, Sending.Flush(b));
  }

  lemma {:induction false} FlushCosts<K(!new)>(ps: seq<Packet>, q: Quota, s: Server<K>, b: nat)
    requires Inv(ps, q, s) && Enabled(ps, q, s, Flush(b))
    ensures Effort(Apply(ps, q, s, Flush(b)), |ps|) < Effort(s, |ps|)
  {
    var s' := Apply(ps, q, s, Flush(b));
    FlushEndsCall(ps, q, s, b);
    forall c: nat | c < |ps| && c != b ensures Rank(s', c) == Rank(s, c) {
      OtherRanks(ps, q, s, s', Behind(s, b), Sending.Flush(b), c);
    }
    EffortDrops(s, s', b, |ps|);
  }

  lemma {:induction false} FinishCosts<K(!new)>(ps: seq<Packet>, q: Quota, s: Server<K>, b: nat)
    requires Inv(ps, q, s) && Enabled(ps, q, s, Manage(Broadcast.Finish(b)))
    ensures Effort(Apply(ps, q, s, Manage(Broadcast.Finish(b))), |ps|) < Effort(s, |ps|)
  {
    var s' := Apply(ps, q, s, Manage(Broadcast.Finish(b)));
    forall c: nat | c < |ps| && c != b ensures Rank(s', c) == Rank(s, c) {
    }
    EffortDrops(s, s', b, |ps|);
  }

  /** A running broadcast of a server without jams can take a step. */
  lemma {:induction false} RunnerCanStep<K(!new)>(ps: seq<Packet>, q: Quota, s: Server<K>, b: nat) returns (a: Move<K>)
    requires Inv(ps, q, s) && NoJam(s) && b < |ps| && s.cast.casts[b].Active?
    requires forall p <- ps :: WellFormed(p)
    ensures CastStep(a) && Enabled(ps, q, s, a)
  {
    assert Broadcast.CastOk(s.cast, b);
    if InCall(s, b) {
      assert SessionOk(ps, q, s, Behind(s, b)) && !Sending.Jammed(Buffer(s, Behind(s, b)));
      a := Flush(b);
    } else if s.cast.casts[b].next < |s.cast.table| {
      assert !Sending.Jammed(Buffer(s, Ahead(s, b)));
      CallerOutside(ps, q, s, b, Ahead(s, b));
      assert ps[b] in ps;
      a := Append(b);
    } else {
      a := Manage(Broadcast.Finish(b));
    }
  }

  lemma {:induction false} CastStepCosts<K(!new)>(ps: seq<Packet>, q: Quota, s: Server<K>, a: Move<K>)
    requires Inv(ps, q, s) && Enabled(ps, q, s, a) && CastStep(a)
    requires (forall p <- ps :: WellFormed(p)) && Room(ps, q)
    ensures Effort(Apply(ps, q, s, a), |ps|) < Effort(s, |ps|)
  {
    match a
    case Manage(move) => FinishCosts(ps, q, s, move.b);
    case Append(b) =>
      AppendFits(ps, q, s, b);
      AppendCosts(ps, q, s, b);
    case Flush(b) => FlushCosts(ps, q, s, b);
  }

  lemma {:induction false} StepCosts<K(!new)>(ps: seq<Packet>, q: Quota, s: Server<K>, a: Move<K>)
    requires Inv(ps, q, s) && Enabled(ps, q, s, a) && (CastStep(a) || a.Reply?)
    requires (forall p <- ps :: WellFormed(p)) && Room(ps, q)
    ensures Effort(Apply(ps, q, s, a), |ps|) + (if CastStep(a) then 1 else 0) <= Effort(s, |ps|)
  {
    if a.Reply? {
      ReplyCostsNothing(ps, q, s, a.k, a.call);
    } else {
      CastStepCosts(ps, q, s, a);
    }
  }

  /** A run with room in which no broadcast can step has none running. */
  lemma {:induction false} StillMeansFree<K(!new)>(ps: seq<Packet>, q: Quota, moves: seq<Move<K>>)
    requires (forall p <- ps :: WellFormed(p)) && Room(ps, q) && Legal(ps, q, moves)
    ensures (forall a | CastStep(a) :: !Enabled(ps, q, Run(ps, q, moves), a)) ==>
              Broadcast.LockFree(Run(ps, q, moves).cast)
  {
    var s := Run(ps, q, moves);
    NeverJams(ps, q, moves);
    if b: nat :| b < |ps| && s.cast.casts[b].Active? {
      var a := RunnerCanStep(ps, q, s, b);
    }
  }

  lemma {:induction false} MoveCosts<K(!new)>(ps: seq<Packet>, q: Quota, moves: seq<Move<K>>, a: Move<K>)
    requires (forall p <- ps :: WellFormed(p)) && Room(ps, q)
    requires Legal(ps, q, moves) && Enabled(ps, q, Run(ps, q, moves), a) && (CastStep(a) || a.Reply?)
    ensures CastSteps([a]) + Effort(Apply(ps, q, Run(ps, q, moves), a), |ps|) <= Effort(Run(ps, q, moves), |ps|)
  {
    NeverJams(ps, q, moves);
    StepCosts(ps, q, Run(ps, q, moves), a);
  }

  /** With room, the running broadcasts finish within a bound on their steps, whatever the order of
      these and however many replies come between, and then the table lock is free. */
  lemma {:induction false} BroadcastsFinish<K(!new)>(ps: seq<Packet>, q: Quota, moves: seq<Move<K>>,
                                                     more: seq<Move<K>>)
    requires (forall p <- ps :: WellFormed(p)) && Room(ps, q)
    requires Legal(ps, q, moves + more) && forall a <- more :: CastStep(a) || a.Reply?
    ensures Legal(ps, q, moves)
    ensures CastSteps(more) + Effort(Run(ps, q, moves + more), |ps|) <= Effort(Run(ps, q, moves), |ps|)
    ensures (forall a | CastStep(a) :: !Enabled(ps, q, Run(ps, q, moves + more), a)) ==>
              Broadcast.LockFree(Run(ps, q, moves + more).cast)
  {
    if more == [] {
      assert moves + more == moves;
    } else {
      var rest, a := more[..|more| - 1], more[|more| - 1];
      Unsnoc(moves, more);
      RunOn(ps, q, moves + rest, a);
      BroadcastsFinish(ps, q, moves, rest);
      MoveCosts(ps, q, moves + rest, a);
    }
    StillMeansFree(ps, q, moves + more);
  }

  lemma {:induction false} RunExtended<K(!new)>(ps: seq<Packet>, q: Quota, moves: seq<Move<K>>, a: Move<K>)
    requires Legal(ps, q, moves) && Enabled(ps, q, Run(ps, q, moves), a)
    ensures Legal(ps, q, moves + [a]) && Run(ps, q, moves + [a]) == Apply(ps, q, Run(ps, q, moves), a)
  {
    assert (moves + [a])[..|moves|] == moves;
  }

  lemma {:induction false} RunnerGoesOn<K(!new)>(ps: seq<Packet>, q: Quota, moves: seq<Move<K>>, b: nat)
    returns (a: Move<K>)
    requires (forall p <- ps :: WellFormed(p)) && Room(ps, q) && Legal(ps, q, moves)
    requires var casts := Run(ps, q, moves).cast.casts; b < |ps| == |casts| && casts[b].Active?
    ensures Legal(ps, q, moves + [a])
    ensures Effort(Run(ps, q, moves + [a]), |ps|) < Effort(Run(ps, q, moves), |ps|)
  {
    NeverJams(ps, q, moves);
    a := RunnerCanStep(ps, q, Run(ps, q, moves), b);
    RunExtended(ps, q, moves, a);
    CastStepCosts(ps, q, Run(ps, q, moves), a);
  }

  predicate Releases<K(==)>(ps: seq<Packet>, q: Quota, moves: seq<Move<K>>, more: seq<Move<K>>) {
    Legal(ps, q, moves + more) && Broadcast.LockFree(Run(ps, q, moves + more).cast)
  }

  /** The run can go on until no broadcast holds the table lock. */
  ghost predicate CanRelease<K(!new)>(ps: seq<Packet>, q: Quota, moves: seq<Move<K>>) {
    exists more :: Releases(ps, q, moves, more)
  }

  /** So the running broadcasts can always be brought to their end. */
  lemma {:induction false} FinishAll<K(!new)>(ps: seq<Packet>, q: Quota, moves: seq<Move<K>>, effort: nat)
    returns (all: seq<Move<K>>)
    requires (forall p <- ps :: WellFormed(p)) && Room(ps, q) && Legal(ps, q, moves)
    requires Effort(Run(ps, q, moves), |ps|) <= effort
    ensures moves <= all && Legal(ps, q, all) && Broadcast.LockFree(Run(ps, q, all).cast)
    decreases effort
  {
    RunInv(ps, q, moves);
    var casts := Run(ps, q, moves).cast.casts;
    if b: nat :| b < |casts| && casts[b].Active? {
      var a := RunnerGoesOn(ps, q, moves, b);
      all := FinishAll(ps, q, moves + [a], effort - 1);
    } else {
      all := moves;
    }
  }
}
