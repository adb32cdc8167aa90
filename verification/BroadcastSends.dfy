/**
 * Broadcasts, replies and send buffers together. A broadcast walks the table with the table lock
 * shared and calls SendPacket on each session; a handler's reply calls SendPacket on its own session
 * without that lock. The append and the flush of each call are critical sections of the session's
 * send buffer, and the sections of all calls interleave.
 */
module BroadcastSends {
  import Broadcast
  import Sending

  import opened Bits
  import opened Wire

  /** At most `casts` broadcasts run at a time, and at most `replies` replies, of at most `size` bytes
      each, are under way on a session at a time. */
  datatype Quota = Quota(casts: nat, replies: nat, size: uint32)

  /** The table with the broadcasts, and the sections executed on each session's send buffer, in
      order. Every session has `senders` senders. Broadcast `b` is sender `b`; the senders behind the
      broadcasts are for replies, of which any number use them one after another. */
  datatype Server<K> = Server(cast: Broadcast.State<K>, calls: map<K, seq<Sending.Action>>, senders: nat)

  function CallsOn<K(==)>(s: Server<K>, k: K): seq<Sending.Action> {
    if k in s.calls then s.calls[k] else []
  }

  /** The send buffer of session `k`. */
  function Buffer<K(==)>(s: Server<K>, k: K): Sending.Outgoing {
    Sending.Run(s.senders, CallsOn(s, k))
  }

  /** `Manage` is a step of the broadcasts other than a SendPacket call; `Reply` is a section of a
      reply to session `k`. */
  datatype Move<K> =
    | Manage(move: Broadcast.Move<K>)
    | Append(b: nat)
    | Flush(b: nat)
    | Reply(k: K, call: Sending.Action)

  /** The senders of a session: one for each broadcast, and as many replies as are under way at a time. */
  function Senders(ps: seq<Packet>, q: Quota): nat {
    |ps| + q.replies
  }

  function Start<K>(ps: seq<Packet>, q: Quota): Server<K> {
    Server(Broadcast.State([], seq(|ps|, _ => Broadcast.Waiting), []), map[], Senders(ps, q))
  }

  function Running<K>(casts: seq<Broadcast.Cast<K>>): nat {
    if casts == [] then 0 else Running(casts[..|casts| - 1]) + if casts[|casts| - 1].Active? then 1 else 0
  }

  predicate Walking<K(==)>(s: Server<K>, b: nat) {
    b < |s.cast.casts| && s.cast.casts[b].Active? && s.cast.casts[b].next <= |s.cast.table|
  }

  /** The session that broadcast `b` called last. */
  function Behind<K(==)>(s: Server<K>, b: nat): K
    requires Walking(s, b) && s.cast.casts[b].next > 0
  {
    s.cast.table[s.cast.casts[b].next - 1]
  }

  /** The session that broadcast `b` calls next. */
  function Ahead<K(==)>(s: Server<K>, b: nat): K
    requires Walking(s, b) && s.cast.casts[b].next < |s.cast.table|
  {
    s.cast.table[s.cast.casts[b].next]
  }

  /** Broadcast `b` has appended to the session it called last and has still to flush. */
  predicate InCall<K(==)>(s: Server<K>, b: nat) {
    && Walking(s, b) && s.cast.casts[b].next > 0
    && var out := Buffer(s, Behind(s, b));
       b < |out.senders| && out.senders[b].Appended?
  }

  predicate Enabled<K(==)>(ps: seq<Packet>, q: Quota, s: Server<K>, a: Move<K>) {
    match a
    case Manage(move) =>
      && Broadcast.Enabled(s.cast, move) && !move.Send?
      && (move.Begin? ==> Running(s.cast.casts) < q.casts)
      && (move.Finish? ==> !InCall(s, move.b))
    case Append(b) =>
      && b < |ps| && Broadcast.Enabled(s.cast, Broadcast.Send(b)) && !InCall(s, b)
      && Sending.Enabled(Buffer(s, Ahead(s, b)), Sending.Append(b, ps[b]))
    case Flush(b) =>
      InCall(s, b) && Sending.Enabled(Buffer(s, Behind(s, b)), Sending.Flush(b))
    case Reply(k, call) =>
      && call.i >= |ps| && Sending.Enabled(Buffer(s, k), call)
      && (call.Append? ==> SizeOf(call.packet) <= q.size)
  }

  function Called<K(==)>(s: Server<K>, k: K, call: Sending.Action): Server<K> {
    s.(calls := s.calls[k := CallsOn(s, k) + [call]])
  }

  function Apply<K(==)>(ps: seq<Packet>, q: Quota, s: Server<K>, a: Move<K>): Server<K>
    requires Enabled(ps, q, s, a)
  {
    match a
    case Manage(move) => s.(cast := Broadcast.Apply(s.cast, move))
    case Append(b) =>
      var k, call := Ahead(s, b), Sending.Append(b, ps[b]);
      var s1 := Called(s, k, call);
      if Sending.Jammed(Sending.Apply(Buffer(s, k), call)) then s1
      else s1.(cast := Broadcast.Apply(s.cast, Broadcast.Send(b)))
    case Flush(b) => Called(s, Behind(s, b), Sending.Flush(b))
    case Reply(k, call) => Called(s, k, call)
  }

  /** The state after the enabled moves of a run; a move that is not enabled has no effect. */
  function Run<K(==)>(ps: seq<Packet>, q: Quota, moves: seq<Move<K>>): Server<K> {
    if moves == [] then Start(ps, q)
    else
      var s := Run(ps, q, moves[..|moves| - 1]);
      if Enabled(ps, q, s, moves[|moves| - 1]) then Apply(ps, q, s, moves[|moves| - 1]) else s
  }

  predicate Legal<K(==)>(ps: seq<Packet>, q: Quota, moves: seq<Move<K>>) {
    moves == []
    || (Legal(ps, q, moves[..|moves| - 1])
        && Enabled(ps, q, Run(ps, q, moves[..|moves| - 1]), moves[|moves| - 1]))
  }

  /** The packets with these numbers. */
  function Pick(ps: seq<Packet>, xs: seq<nat>): (qs: seq<Packet>)
    ensures |qs| == |xs|
  {
    seq(|xs|, k requires 0 <= k < |xs| => if xs[k] < |ps| then ps[xs[k]] else [])
  }

  /** The packets that the senders from `lo` up to `hi` appended, in order. */
  function From(calls: seq<Sending.Action>, lo: nat, hi: nat): seq<Packet> {
    if calls == [] then []
    else
      var call := calls[|calls| - 1];
      From(calls[..|calls| - 1], lo, hi) + if lo <= call.i < hi then Sending.PacketsIn(call) else []
  }

  // ---- What every run keeps ----

  /** Broadcast `b`, seen from session `k`: it is inside a section of `k` only while it walks
      past `k`. */
  predicate SenderOk<K(==)>(cast: Broadcast.State<K>, k: K, b: nat, x: Sending.Sender)
    requires b < |cast.casts|
  {
    match x
    case Outside => true
    case Appended(_) =>
      var c := cast.casts[b];
      c.Active? && 0 < c.next <= |cast.table| && cast.table[c.next - 1] == k
    case Retrying(_) =>
      var c := cast.casts[b];
      c.Active? && c.next < |cast.table| && cast.table[c.next] == k
  }

  /** Every broadcast is inside a section of `k` only where its walk allows it. */
  ghost predicate PlacesOk<K(!new)>(cast: Broadcast.State<K>, k: K, senders: seq<Sending.Sender>) {
    |cast.casts| <= |senders| && forall b: nat | b < |cast.casts| :: SenderOk(cast, k, b, senders[b])
  }

  /** A broadcast appends its own packet, and a reply one within the quota. */
  predicate CallOk(ps: seq<Packet>, q: Quota, call: Sending.Action) {
    call.Append? ==>
      && Sending.InMemory(call.packet)
      && if call.i < |ps| then call.packet == ps[call.i] else SizeOf(call.packet) <= q.size
  }

  predicate CallsFit(ps: seq<Packet>, q: Quota, calls: seq<Sending.Action>) {
    calls == [] || (CallsFit(ps, q, calls[..|calls| - 1]) && CallOk(ps, q, calls[|calls| - 1]))
  }

  /** The sections executed on the send buffer of `k` are those of a run of it, and of the broadcasts
      exactly those whose calls on `k` are in the log have appended their packets, in that order. */
  ghost predicate CallsOk<K(!new)>(ps: seq<Packet>, q: Quota, log: seq<(K, nat)>, k: K, calls: seq<Sending.Action>) {
    var n := Senders(ps, q);
    var out := Sending.Run(n, calls);
    && Sending.Legal(n, calls) && Sending.HeldByRetrier(out) && |out.senders| == n
    && CallsFit(ps, q, calls)
    && (Jammed(out, |ps|) || From(calls, 0, |ps|) == Pick(ps, Broadcast.Received(log, k)))
  }

  /** One of the first `n` senders kept the mutex. */
  predicate Jammed(out: Sending.Outgoing, n: nat) {
    out.holder.Some? && out.holder.value < n
  }

  ghost predicate BufferOk<K(!new)>(ps: seq<Packet>, q: Quota, cast: Broadcast.State<K>, k: K,
                                    calls: seq<Sending.Action>) {
    CallsOk(ps, q, cast.log, k, calls) && PlacesOk(cast, k, Sending.Run(Senders(ps, q), calls).senders)
  }

  ghost predicate SessionOk<K(!new)>(ps: seq<Packet>, q: Quota, s: Server<K>, k: K) {
    BufferOk(ps, q, s.cast, k, CallsOn(s, k))
  }

  ghost predicate Inv<K(!new)>(ps: seq<Packet>, q: Quota, s: Server<K>) {
    && |ps| == |s.cast.casts| && s.senders == Senders(ps, q)
    && Broadcast.Inv(s.cast) && Running(s.cast.casts) <= q.casts
    && forall k: K :: SessionOk(ps, q, s, k)
  }

  lemma {:induction false} RunningUpdate<K>(casts: seq<Broadcast.Cast<K>>, b: nat, c: Broadcast.Cast<K>)
    requires b < |casts|
    ensures Running(casts[b := c]) == Running(casts) - (if casts[b].Active? then 1 else 0) + if c.Active? then 1 else 0
  {
    var n := |casts| - 1;
    if b == n {
      assert casts[b := c][..n] == casts[..n];
    } else {
      assert casts[b := c][..n] == casts[..n][b := c];
      RunningUpdate(casts[..n], b, c);
    }
  }

  lemma {:induction false} NoneRunning<K>(n: nat)
    ensures Running(seq(n, _ => Broadcast.Cast<K>.Waiting)) == 0
  {
    if n > 0 {
      assert seq(n, _ => Broadcast.Cast<K>.Waiting)[..n - 1] == seq(n - 1, _ => Broadcast.Cast<K>.Waiting);
      NoneRunning<K>(n - 1);
    }
  }

  lemma {:induction false} PickPush(ps: seq<Packet>, xs: seq<nat>, x: nat)
    requires x < |ps|
    ensures Pick(ps, xs + [x]) == Pick(ps, xs) + [ps[x]]
  {
  }

  lemma {:induction false} ReceivedPush<K>(log: seq<(K, nat)>, k: K, b: nat, k': K)
    ensures Broadcast.Received(log + [(k, b)], k')
            == Broadcast.Received(log, k') + if k == k' then [b] else []
  {
    assert (log + [(k, b)])[..|log|] == log;
  }

  lemma {:induction false} StartInv<K(!new)>(ps: seq<Packet>, q: Quota)
    ensures Inv(ps, q, Start<K>(ps, q))
  {
    var s := Start<K>(ps, q);
    NoneRunning<K>(|ps|);
    forall b | 0 <= b < |s.cast.casts| ensures Broadcast.CastOk(s.cast, b) {
    }
  }

  /** One more section on a send buffer. */
  lemma {:induction false} OneMoreCall(n: nat, calls: seq<Sending.Action>, call: Sending.Action)
    requires Sending.Legal(n, calls) && Sending.Enabled(Sending.Run(n, calls), call)
    ensures Sending.Legal(n, calls + [call])
    ensures Sending.Run(n, calls + [call]) == Sending.Apply(Sending.Run(n, calls), call)
    ensures Sending.HeldByRetrier(Sending.Run(n, calls + [call])) && |Sending.Run(n, calls + [call]).senders| == n
  {
    Sending.Extends(n, calls, call);
    Sending.HolderRetries(n, calls + [call]);
  }

  lemma {:induction false} FromPush(calls: seq<Sending.Action>, call: Sending.Action, lo: nat, hi: nat)
    ensures From(calls + [call], lo, hi)
            == From(calls, lo, hi) + if lo <= call.i < hi then Sending.PacketsIn(call) else []
  {
    assert (calls + [call])[..|calls|] == calls;
  }

  lemma {:induction false} FitPush(ps: seq<Packet>, q: Quota, calls: seq<Sending.Action>, call: Sending.Action)
    requires CallsFit(ps, q, calls) && CallOk(ps, q, call)
    ensures CallsFit(ps, q, calls + [call])
  {
    assert (calls + [call])[..|calls|] == calls;
  }

  lemma {:induction false} ManageKeepsPlaces<K(!new)>(s: Server<K>, move: Broadcast.Move<K>, k: K)
    requires Broadcast.Enabled(s.cast, move) && !move.Send? && (move.Finish? ==> !InCall(s, move.b))
    requires PlacesOk(s.cast, k, Buffer(s, k).senders)
    ensures PlacesOk(Broadcast.Apply(s.cast, move), k, Buffer(s, k).senders)
  {
    var senders := Buffer(s, k).senders;
    forall b: nat | b < |s.cast.casts| ensures SenderOk(Broadcast.Apply(s.cast, move), k, b, senders[b]) {
      assert SenderOk(s.cast, k, b, senders[b]);
    }
  }

  lemma {:induction false} ManageKeepsInv<K(!new)>(ps: seq<Packet>, q: Quota, s: Server<K>, move: Broadcast.Move<K>)
    requires Inv(ps, q, s) && Enabled(ps, q, s, Manage(move))
    ensures Inv(ps, q, Apply(ps, q, s, Manage(move)))
  {
    var s' := Apply(ps, q, s, Manage(move));
    Broadcast.OtherMovesKeepInv(s.cast, move);
    if move.Begin? || move.Finish? {
      RunningUpdate(s.cast.casts, move.b, s'.cast.casts[move.b]);
    }
    forall k: K ensures SessionOk(ps, q, s', k) {
      assert SessionOk(ps, q, s, k);
      ManageKeepsPlaces(s, move, k);
    }
  }

  /** The walk of `b` goes on past the session on which it has appended. */
  lemma {:induction false} SendKeepsPlaces<K(!new)>(cast: Broadcast.State<K>, k: K, b: nat,
                                                    senders: seq<Sending.Sender>)
    requires PlacesOk(cast, k, senders) && Broadcast.Enabled(cast, Broadcast.Send(b))
    requires senders[b] == Sending.Outside || k == cast.table[cast.casts[b].next]
    ensures k == cast.table[cast.casts[b].next] ==>
              forall x: nat :: PlacesOk(Broadcast.Apply(cast, Broadcast.Send(b)), k, senders[b := Sending.Appended(x)])
    ensures senders[b] == Sending.Outside ==> PlacesOk(Broadcast.Apply(cast, Broadcast.Send(b)), k, senders)
  {
    var cast' := Broadcast.Apply(cast, Broadcast.Send(b));
    forall c: nat | c < |cast.casts| && c != b ensures SenderOk(cast', k, c, senders[c]) {
      assert SenderOk(cast, k, c, senders[c]);
    }
  }

  /** A broadcast that is between calls is in no section of a session, or it jammed there. */
  lemma {:induction false} CallerOutside<K(!new)>(ps: seq<Packet>, q: Quota, s: Server<K>, b: nat, k: K)
    requires Inv(ps, q, s) && Walking(s, b) && !InCall(s, b)
    ensures |Buffer(s, k).senders| == Senders(ps, q)
    ensures Buffer(s, k).senders[b] == Sending.Outside
            || (Sending.Jammed(Buffer(s, k)) && s.cast.casts[b].next < |s.cast.table| && k == Ahead(s, b))
  {
    assert SessionOk(ps, q, s, k);
    assert SenderOk(s.cast, k, b, Buffer(s, k).senders[b]);
  }

  lemma {:induction false} WholePayload(p: Packet)
    requires WellFormed(p)
    ensures Sending.InMemory(p) && Sending.Payload(p) == p
  {
    assert p[..|p|] == p;
  }

  lemma {:induction false} AppendKeepsCalls<K(!new)>(ps: seq<Packet>, q: Quota, log: seq<(K, nat)>, k: K,
                                                     calls: seq<Sending.Action>, b: nat)
    requires CallsOk(ps, q, log, k, calls) && b < |ps| && WellFormed(ps[b])
    requires Sending.Enabled(Sending.Run(Senders(ps, q), calls), Sending.Append(b, ps[b]))
    ensures CallsOk(ps, q, log + [(k, b)], k, calls + [Sending.Append(b, ps[b])])
  {
    WholePayload(ps[b]);
    OneMoreCall(Senders(ps, q), calls, Sending.Append(b, ps[b]));
    FromPush(calls, Sending.Append(b, ps[b]), 0, |ps|);
    FitPush(ps, q, calls, Sending.Append(b, ps[b]));
    ReceivedPush(log, k, b, k);
    PickPush(ps, Broadcast.Received(log, k), b);
  }

  /** A section that appends no broadcast's packet: a flush, a reply's, or one that finds no room. */
  lemma {:induction false} SectionKeepsCalls<K(!new)>(ps: seq<Packet>, q: Quota, log: seq<(K, nat)>, k: K,
                                                      calls: seq<Sending.Action>, call: Sending.Action)
    requires CallsOk(ps, q, log, k, calls) && Sending.Enabled(Sending.Run(Senders(ps, q), calls), call)
    requires call.Flush? || call.i >= |ps| || Sending.Jammed(Sending.Apply(Sending.Run(Senders(ps, q), calls), call))
    requires CallOk(ps, q, call)
    ensures CallsOk(ps, q, log, k, calls + [call])
  {
    OneMoreCall(Senders(ps, q), calls, call);
    FromPush(calls, call, 0, |ps|);
    FitPush(ps, q, calls, call);
    assert From(calls, 0, |ps|) + [] == From(calls, 0, |ps|);
  }

  lemma {:induction false} OthersLog<K(!new)>(ps: seq<Packet>, q: Quota, log: seq<(K, nat)>, k: K, b: nat, k': K,
                                              calls: seq<Sending.Action>)
    requires CallsOk(ps, q, log, k', calls) && k != k'
    ensures CallsOk(ps, q, log + [(k, b)], k', calls)
  {
    ReceivedPush(log, k, b, k');
    assert Broadcast.Received(log, k') + [] == Broadcast.Received(log, k');
  }

  lemma {:induction false} JamKeepsPlaces<K(!new)>(cast: Broadcast.State<K>, k: K, b: nat,
                                                   senders: seq<Sending.Sender>, packet: seq<byte>)
    requires PlacesOk(cast, k, senders) && Broadcast.Enabled(cast, Broadcast.Send(b))
    requires k == cast.table[cast.casts[b].next]
    ensures PlacesOk(cast, k, senders[b := Sending.Retrying(packet)])
  {
    forall c: nat | c < |cast.casts| && c != b ensures SenderOk(cast, k, c, senders[c]) {
    }
  }

  /** The send buffer on which broadcast `b` appends, with room or without. */
  lemma {:induction false} TargetKeeps<K(!new)>(ps: seq<Packet>, q: Quota, cast: Broadcast.State<K>, k: K,
                                                calls: seq<Sending.Action>, b: nat)
    requires BufferOk(ps, q, cast, k, calls) && b < |ps| == |cast.casts| && WellFormed(ps[b])
    requires Broadcast.Enabled(cast, Broadcast.Send(b)) && k == cast.table[cast.casts[b].next]
    requires Sending.Enabled(Sending.Run(Senders(ps, q), calls), Sending.Append(b, ps[b]))
    ensures var call := Sending.Append(b, ps[b]);
            var out' := Sending.Apply(Sending.Run(Senders(ps, q), calls), call);
            var cast' := if Sending.Jammed(out') then cast else Broadcast.Apply(cast, Broadcast.Send(b));
            BufferOk(ps, q, cast', k, calls + [call])
  {
    var call, out := Sending.Append(b, ps[b]), Sending.Run(Senders(ps, q), calls);
    OneMoreCall(Senders(ps, q), calls, call);
    if Sending.Jammed(Sending.Apply(out, call)) {
      WholePayload(ps[b]);
      SectionKeepsCalls(ps, q, cast.log, k, calls, call);
      JamKeepsPlaces(cast, k, b, out.senders, ps[b]);
    } else {
      AppendKeepsCalls(ps, q, cast.log, k, calls, b);
      SendKeepsPlaces(cast, k, b, out.senders);
    }
  }

  /** What the section `call` on session `k` makes of the calls on the sessions. */
  lemma {:induction false} CallsAfter<K(!new)>(s: Server<K>, k: K, call: Sending.Action, j: K)
    ensures CallsOn(Called(s, k, call), j) == if j == k then CallsOn(s, k) + [call] else CallsOn(s, j)
  {
  }

  lemma {:induction false} AppendKeepsTarget<K(!new)>(ps: seq<Packet>, q: Quota, s: Server<K>, b: nat)
    requires Inv(ps, q, s) && Enabled(ps, q, s, Append(b)) && WellFormed(ps[b])
    ensures SessionOk(ps, q, Apply(ps, q, s, Append(b)), Ahead(s, b))
  {
    var k, s' := Ahead(s, b), Apply(ps, q, s, Append(b));
    assert SessionOk(ps, q, s, k);
    assert Buffer(s, k) == Sending.Run(Senders(ps, q), CallsOn(s, k));
    TargetKeeps(ps, q, s.cast, k, CallsOn(s, k), b);
    CallsAfter(s, k, Sending.Append(b, ps[b]), k);
    assert CallsOn(s', k) == CallsOn(s, k) + [Sending.Append(b, ps[b])];
  }

  /** The send buffers that broadcast `b` passes by. */
  lemma {:induction false} OthersKeep<K(!new)>(ps: seq<Packet>, q: Quota, cast: Broadcast.State<K>, k: K,
                                               calls: seq<Sending.Action>, b: nat)
    requires BufferOk(ps, q, cast, k, calls) && Broadcast.Enabled(cast, Broadcast.Send(b))
    requires k != cast.table[cast.casts[b].next]
    requires Sending.Run(Senders(ps, q), calls).senders[b] == Sending.Outside
    ensures BufferOk(ps, q, Broadcast.Apply(cast, Broadcast.Send(b)), k, calls)
  {
    SendKeepsPlaces(cast, k, b, Sending.Run(Senders(ps, q), calls).senders);
    OthersLog(ps, q, cast.log, cast.table[cast.casts[b].next], b, k, calls);
  }

  lemma {:induction false} OthersAfter<K(!new)>(ps: seq<Packet>, q: Quota, s: Server<K>, s': Server<K>, b: nat, k: K)
    requires SessionOk(ps, q, s, k) && CallsOn(s', k) == CallsOn(s, k)
    requires s'.cast == s.cast
             || (Broadcast.Enabled(s.cast, Broadcast.Send(b)) && k != s.cast.table[s.cast.casts[b].next]
                 && s'.cast == Broadcast.Apply(s.cast, Broadcast.Send(b))
                 && Sending.Run(Senders(ps, q), CallsOn(s, k)).senders[b] == Sending.Outside)
    ensures SessionOk(ps, q, s', k)
  {
    if s'.cast != s.cast {
      OthersKeep(ps, q, s.cast, k, CallsOn(s, k), b);
    }
  }

  lemma {:induction false} AppendKeepsOthers<K(!new)>(ps: seq<Packet>, q: Quota, s: Server<K>, b: nat, k: K)
    requires Inv(ps, q, s) && Enabled(ps, q, s, Append(b)) && k != Ahead(s, b)
    ensures SessionOk(ps, q, Apply(ps, q, s, Append(b)), k)
  {
    CallsAfter(s, Ahead(s, b), Sending.Append(b, ps[b]), k);
    assert CallsOn(Apply(ps, q, s, Append(b)), k) == CallsOn(s, k);
    CallerOutside(ps, q, s, b, k);
    assert SessionOk(ps, q, s, k) && Buffer(s, k) == Sending.Run(Senders(ps, q), CallsOn(s, k));
    OthersAfter(ps, q, s, Apply(ps, q, s, Append(b)), b, k);
  }

  lemma {:induction false} AppendKeepsInv<K(!new)>(ps: seq<Packet>, q: Quota, s: Server<K>, b: nat)
    requires Inv(ps, q, s) && Enabled(ps, q, s, Append(b)) && WellFormed(ps[b])
    ensures Inv(ps, q, Apply(ps, q, s, Append(b)))
  {
    var s' := Apply(ps, q, s, Append(b));
    Broadcast.SendKeepsInv(s.cast, b);
    RunningUpdate(s.cast.casts, b, Broadcast.Active(s.cast.casts[b].next + 1));
    forall k: K ensures SessionOk(ps, q, s', k) {
      if k == Ahead(s, b) {
        AppendKeepsTarget(ps, q, s, b);
      } else {
        AppendKeepsOthers(ps, q, s, b, k);
      }
    }
  }

  /** The send buffer in which broadcast `b` flushes. */
  lemma {:induction false} FlushKeepsBuffer<K(!new)>(ps: seq<Packet>, q: Quota, cast: Broadcast.State<K>, k: K,
                                                     calls: seq<Sending.Action>, b: nat)
    requires BufferOk(ps, q, cast, k, calls) && |ps| == |cast.casts|
    requires Sending.Enabled(Sending.Run(Senders(ps, q), calls), Sending.Flush(b))
    ensures BufferOk(ps, q, cast, k, calls + [Sending.Flush(b)])
  {
    var out := Sending.Run(Senders(ps, q), calls);
    OneMoreCall(Senders(ps, q), calls, Sending.Flush(b));
    SectionKeepsCalls(ps, q, cast.log, k, calls, Sending.Flush(b));
    forall c: nat | c < |ps| ensures SenderOk(cast, k, c, Sending.Apply(out, Sending.Flush(b)).senders[c]) {
      assert SenderOk(cast, k, c, out.senders[c]);
    }
  }

  lemma {:induction false} FlushKeepsInv<K(!new)>(ps: seq<Packet>, q: Quota, s: Server<K>, b: nat)
    requires Inv(ps, q, s) && Enabled(ps, q, s, Flush(b))
    ensures Inv(ps, q, Apply(ps, q, s, Flush(b)))
  {
    var s' := Apply(ps, q, s, Flush(b));
    forall j: K ensures SessionOk(ps, q, s', j) {
      assert SessionOk(ps, q, s, j);
      CallsAfter(s, Behind(s, b), Sending.Flush(b), j);
      if j == Behind(s, b) {
        assert Buffer(s, j) == Sending.Run(Senders(ps, q), CallsOn(s, j));
        FlushKeepsBuffer(ps, q, s.cast, j, CallsOn(s, j), b);
      }
    }
  }

  /** The send buffer that a reply uses. */
  lemma {:induction false} ReplyKeepsBuffer<K(!new)>(ps: seq<Packet>, q: Quota, cast: Broadcast.State<K>, k: K,
                                                     calls: seq<Sending.Action>, call: Sending.Action)
    requires BufferOk(ps, q, cast, k, calls) && |ps| == |cast.casts| && call.i >= |ps| && CallOk(ps, q, call)
    requires Sending.Enabled(Sending.Run(Senders(ps, q), calls), call)
    ensures BufferOk(ps, q, cast, k, calls + [call])
  {
    var out := Sending.Run(Senders(ps, q), calls);
    OneMoreCall(Senders(ps, q), calls, call);
    SectionKeepsCalls(ps, q, cast.log, k, calls, call);
    forall b: nat | b < |cast.casts| ensures SenderOk(cast, k, b, Sending.Apply(out, call).senders[b]) {
      assert SenderOk(cast, k, b, out.senders[b]);
    }
  }

  lemma {:induction false} ReplyKeepsInv<K(!new)>(ps: seq<Packet>, q: Quota, s: Server<K>, k: K, call: Sending.Action)
    requires Inv(ps, q, s) && Enabled(ps, q, s, Reply(k, call))
    ensures Inv(ps, q, Apply(ps, q, s, Reply(k, call)))
  {
    var s' := Apply(ps, q, s, Reply(k, call));
    forall j: K ensures SessionOk(ps, q, s', j) {
      assert SessionOk(ps, q, s, j);
      CallsAfter(s, k, call, j);
      if j == k {
        assert Buffer(s, j) == Sending.Run(Senders(ps, q), CallsOn(s, j));
        ReplyKeepsBuffer(ps, q, s.cast, j, CallsOn(s, j), call);
      }
    }
  }

  lemma {:induction false} StepInv<K(!new)>(ps: seq<Packet>, q: Quota, s: Server<K>, a: Move<K>)
    requires Inv(ps, q, s) && Enabled(ps, q, s, a) && forall p <- ps :: WellFormed(p)
    ensures Inv(ps, q, Apply(ps, q, s, a))
  {
    match a
    case Manage(move) => ManageKeepsInv(ps, q, s, move);
    case Append(b) => AppendKeepsInv(ps, q, s, b);
    case Flush(b) => FlushKeepsInv(ps, q, s, b);
    case Reply(k, call) => ReplyKeepsInv(ps, q, s, k, call);
  }

  lemma {:induction false} RunInv<K(!new)>(ps: seq<Packet>, q: Quota, moves: seq<Move<K>>)
    requires Legal(ps, q, moves) && forall p <- ps :: WellFormed(p)
    ensures Inv(ps, q, Run(ps, q, moves))
  {
    if moves == [] {
      StartInv<K>(ps, q);
    } else {
      var prefix := moves[..|moves| - 1];
      RunInv(ps, q, prefix);
      StepInv(ps, q, Run(ps, q, prefix), moves[|moves| - 1]);
    }
  }

  // ---- What the sessions get ----

  function Without<T>(xs: seq<T>, j: nat): seq<T>
    requires j < |xs|
  {
    xs[..j] + xs[j + 1..]
  }

  lemma {:induction false} WithoutMultiset<T>(xs: seq<T>, j: nat)
    requires j < |xs|
    ensures multiset(Without(xs, j)) == multiset(xs) - multiset{xs[j]}
  {
    assert xs == xs[..j] + [xs[j]] + xs[j + 1..];
  }

  lemma {:induction false} PickRemove(ps: seq<Packet>, xs: seq<nat>, j: nat)
    requires j < |xs|
    ensures multiset(Pick(ps, xs)) == multiset(Pick(ps, Without(xs, j))) + multiset{Pick(ps, xs)[j]}
  {
    var qs := Pick(ps, xs);
    assert qs == qs[..j] + [qs[j]] + qs[j + 1..];
    assert Pick(ps, Without(xs, j)) == Without(qs, j);
  }

  /** Numbers in another order pick the same packets in another order. */
  lemma {:induction false} PickReordered(ps: seq<Packet>, xs: seq<nat>, ys: seq<nat>)
    requires multiset(xs) == multiset(ys)
    ensures multiset(Pick(ps, xs)) == multiset(Pick(ps, ys))
  {
    if xs == [] {
      assert |multiset(ys)| == 0;
    } else {
      assert xs[0] in multiset(ys);
      var j :| 0 <= j < |ys| && ys[j] == xs[0];
      WithoutMultiset(xs, 0);
      WithoutMultiset(ys, j);
      PickReordered(ps, Without(xs, 0), Without(ys, j));
      PickRemove(ps, xs, 0);
      PickRemove(ps, ys, j);
    }
  }

  lemma {:induction false} PickAll(ps: seq<Packet>, xs: seq<nat>)
    requires multiset(xs) == multiset(Broadcast.AllCasts(|ps|))
    ensures multiset(Pick(ps, xs)) == multiset(ps)
    ensures forall q <- Pick(ps, xs) :: q in ps
  {
    PickReordered(ps, xs, Broadcast.AllCasts(|ps|));
    assert Pick(ps, Broadcast.AllCasts(|ps|)) == ps;
    forall q <- Pick(ps, xs) ensures q in ps {
      assert q in multiset(ps);
    }
  }

  /** Whatever the senders below `mid` did not append, the others did. */
  lemma {:induction false} FromAll(n: nat, calls: seq<Sending.Action>, mid: nat)
    requires mid <= n && Sending.Legal(n, calls)
    ensures multiset(Sending.Packets(calls)) == multiset(From(calls, 0, mid)) + multiset(From(calls, mid, n))
  {
    if calls != [] {
      FromAll(n, calls[..|calls| - 1], mid);
      Sending.HolderRetries(n, calls[..|calls| - 1]);
    }
  }

  /** No reply is under way on session `k`, of a server with `n` broadcasts. */
  predicate RepliesOver<K(==)>(s: Server<K>, k: K, n: nat) {
    forall i | n <= i < |Buffer(s, k).senders| :: Buffer(s, k).senders[i] == Sending.Outside
  }

  lemma {:induction false} IdleSession<K(!new)>(ps: seq<Packet>, q: Quota, s: Server<K>, k: K)
    requires Inv(ps, q, s) && Broadcast.LockFree(s.cast) && RepliesOver(s, k, |ps|)
    ensures Sending.Legal(Senders(ps, q), CallsOn(s, k)) && Sending.Finished(Buffer(s, k))
    ensures From(CallsOn(s, k), 0, |ps|) == Pick(ps, Broadcast.Received(s.cast.log, k))
  {
    assert SessionOk(ps, q, s, k);
    forall b | 0 <= b < |ps| ensures Buffer(s, k).senders[b] == Sending.Outside {
      assert SenderOk(s.cast, k, b, Buffer(s, k).senders[b]);
    }
  }

  /** All broadcasts are done, and all of them found session `k`. */
  predicate AllFound<K(==)>(cast: Broadcast.State<K>, k: K) {
    forall b | 0 <= b < |cast.casts| :: cast.casts[b].Done? && k in cast.casts[b].audience
  }

  lemma {:induction false} FoundPackets<K(!new)>(ps: seq<Packet>, cast: Broadcast.State<K>, k: K)
    requires Broadcast.Inv(cast) && |ps| == |cast.casts| && AllFound(cast, k)
    ensures multiset(Pick(ps, Broadcast.Received(cast.log, k))) == multiset(ps)
  {
    Broadcast.InvReceivedOnce(cast, k);
    PickAll(ps, Broadcast.Received(cast.log, k));
  }

  lemma {:induction false} NobodyRunsWhenFound<K>(cast: Broadcast.State<K>, k: K)
    requires AllFound(cast, k)
    ensures Broadcast.LockFree(cast)
  {
  }

  lemma {:induction false} ReceivedAt<K(!new)>(ps: seq<Packet>, q: Quota, s: Server<K>, k: K)
    requires Inv(ps, q, s) && AllFound(s.cast, k) && RepliesOver(s, k, |ps|)
    ensures var calls := CallsOn(s, k);
            && Buffer(s, k) == Sending.Run(Senders(ps, q), calls)
            && Sending.Legal(Senders(ps, q), calls) && Sending.Finished(Buffer(s, k))
            && From(calls, 0, |ps|) == Pick(ps, Broadcast.Received(s.cast.log, k))
            && multiset(From(calls, 0, |ps|)) == multiset(ps)
            && multiset(Sending.Packets(calls)) == multiset(ps) + multiset(From(calls, |ps|, Senders(ps, q)))
  {
    var calls := CallsOn(s, k);
    NobodyRunsWhenFound(s.cast, k);
    IdleSession(ps, q, s, k);
    FoundPackets(ps, s.cast, k);
    assert multiset(From(calls, 0, |ps|)) == multiset(ps);
    FromAll(Senders(ps, q), calls, |ps|);
  }

  /** Once all broadcasts and the replies to it are over, a session that all broadcasts found has got
      their packets, each once, in the order of the calls on it, and beside them only replies. */
  lemma {:induction false} AllReceived<K(!new)>(ps: seq<Packet>, q: Quota, moves: seq<Move<K>>, k: K)
    requires Legal(ps, q, moves) && forall p <- ps :: WellFormed(p)
    requires var s := Run(ps, q, moves); AllFound(s.cast, k) && RepliesOver(s, k, |ps|)
    ensures var s := Run(ps, q, moves);
            var calls := CallsOn(s, k);
            && |s.cast.casts| == |ps| && Buffer(s, k) == Sending.Run(Senders(ps, q), calls)
            && Sending.Legal(Senders(ps, q), calls) && Sending.Finished(Buffer(s, k))
            && From(calls, 0, |ps|) == Pick(ps, Broadcast.Received(s.cast.log, k))
            && multiset(From(calls, 0, |ps|)) == multiset(ps)
            && multiset(Sending.Packets(calls))
               == multiset(ps) + multiset(From(calls, |ps|, Senders(ps, q)))
  {
    RunInv(ps, q, moves);
    ReceivedAt(ps, q, Run(ps, q, moves), k);
  }
}
