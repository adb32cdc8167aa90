/**
 * The shared send buffer of a session as a step relation. A sender appends its packet in one
 * critical section and flushes the buffer in another; any number of senders interleave.
 */
module Sending {
  import opened Bits
  import opened Options
  import opened Wire

  /** A sender between its two critical sections remembers how much it appended. One that found no
      room has called SendPacket again from inside its first section. */
  datatype Sender = Outside | Appended(size: nat) | Retrying(packet: seq<byte>)

  /** `sent` lists the bytes handed to the socket, call by call. `holder` is the sender that holds
      the mutex between two steps, if any. */
  datatype Outgoing =
    Outgoing(buffer: seq<byte>, senders: seq<Sender>, sent: seq<seq<byte>>, holder: Option<nat>)

  datatype Action = Append(i: nat, packet: seq<byte>) | Flush(i: nat)

  function Start(n: nat): Outgoing {
    Outgoing([], seq(n, _ => Outside), [], None)
  }

  /** A packet in memory is at least as long as its header says. */
  predicate InMemory(packet: seq<byte>) {
    |packet| >= HEADER_SIZE && SizeOf(packet) <= |packet|
  }

  function Payload(packet: seq<byte>): Packet
    requires InMemory(packet)
  {
    packet[..SizeOf(packet)]
  }

  /** Some sender kept the mutex. */
  predicate Jammed(s: Outgoing) {
    s.holder.Some?
  }

  /** Both sections begin by locking the mutex. It is not recursive: whoever holds it, even the
      caller, keeps the caller waiting. */
  predicate Enabled(s: Outgoing, a: Action) {
    && s.holder.None? && a.i < |s.senders|
    && match a
       case Append(i, packet) => InMemory(packet) && (s.senders[i] == Outside || s.senders[i] == Retrying(packet))
       case Flush(i) => s.senders[i].Appended?
  }

  function Apply(s: Outgoing, a: Action): Outgoing
    requires Enabled(s, a)
  {
    match a
    case Append(i, packet) =>
      if |s.buffer| + SizeOf(packet) > BUF_SIZE
      then s.(holder := Some(i), senders := s.senders[i := Retrying(packet)])
      else s.(buffer := s.buffer + Payload(packet), senders := s.senders[i := Appended(SizeOf(packet))])
    case Flush(i) =>
      s.(buffer := [], senders := s.senders[i := Outside], sent := s.sent + [s.buffer])
  }

  /** The state after the enabled actions of a run; an action that is not enabled has no effect. */
  function Run(n: nat, acts: seq<Action>): Outgoing {
    if acts == [] then Start(n)
    else
      var s := Run(n, acts[..|acts| - 1]);
      if Enabled(s, acts[|acts| - 1]) then Apply(s, acts[|acts| - 1]) else s
  }

  predicate Legal(n: nat, acts: seq<Action>) {
    acts == [] || (Legal(n, acts[..|acts| - 1]) && Enabled(Run(n, acts[..|acts| - 1]), acts[|acts| - 1]))
  }

  /** The packets passed to SendPacket, in the order of the append sections. */
  function Packets(acts: seq<Action>): seq<Packet> {
    if acts == [] then []
    else Packets(acts[..|acts| - 1]) + PacketsIn(acts[|acts| - 1])
  }

  function PacketsIn(a: Action): seq<Packet> {
    match a
    case Append(_, packet) => if InMemory(packet) then [Payload(packet)] else []
    case Flush(_) => []
  }

  // ---- Conservation ----

  /** Cut into batches, `ps` is what each socket call got and, last, what the buffer holds. */
  ghost predicate Splits(s: Outgoing, ps: seq<Packet>, batches: seq<seq<Packet>>, pending: seq<Packet>) {
    && Join(batches) + pending == ps
    && |batches| == |s.sent| && (forall k | 0 <= k < |batches| :: s.sent[k] == Flatten(batches[k]))
    && s.buffer == Flatten(pending)
  }

  /** No packet torn, duplicated, lost or overtaken. */
  ghost predicate WholePackets(s: Outgoing, ps: seq<Packet>) {
    exists batches, pending :: Splits(s, ps, batches, pending)
  }

  lemma {:induction false} AppendKeepsWhole(s: Outgoing, s': Outgoing, p: Packet, ps: seq<Packet>)
    requires WholePackets(s, ps) && s'.buffer == s.buffer + p && s'.sent == s.sent
    ensures WholePackets(s', ps + [p])
  {
    var batches, pending :| Splits(s, ps, batches, pending);
    FlattenPush(pending, p);
    assert Join(batches) + (pending + [p]) == ps + [p];
    assert Splits(s', ps + [p], batches, pending + [p]);
  }

  lemma {:induction false} FlushKeepsWhole(s: Outgoing, s': Outgoing, ps: seq<Packet>)
    requires WholePackets(s, ps) && s'.buffer == [] && s'.sent == s.sent + [s.buffer]
    ensures WholePackets(s', ps)
  {
    var batches, pending :| Splits(s, ps, batches, pending);
    assert (batches + [pending])[..|batches|] == batches;
    assert Join(batches + [pending]) + [] == ps;
    assert Splits(s', ps, batches + [pending], []);
  }

  lemma {:induction false} StepKeepsWhole(s: Outgoing, a: Action, ps: seq<Packet>)
    requires Enabled(s, a) && !Jammed(Apply(s, a)) && WholePackets(s, ps)
    ensures WholePackets(Apply(s, a), ps + PacketsIn(a))
  {
    match a
    case Append(i, packet) => AppendKeepsWhole(s, Apply(s, a), Payload(packet), ps);
    case Flush(i) =>
      FlushKeepsWhole(s, Apply(s, a), ps);
      assert ps + PacketsIn(a) == ps;
  }

  /** Conservation under every interleaving: until some sender jams, the socket calls and the
      buffer together are exactly the packets passed to SendPacket, whole and in append order. */
  lemma {:induction false} Conservation(n: nat, acts: seq<Action>)
    requires Legal(n, acts) && !Jammed(Run(n, acts))
    ensures WholePackets(Run(n, acts), Packets(acts))
  {
    if acts == [] {
      assert Splits(Run(n, acts), [], [], []);
    } else {
      var prefix := acts[..|acts| - 1];
      Conservation(n, prefix);
      StepKeepsWhole(Run(n, prefix), acts[|acts| - 1], Packets(prefix));
    }
  }

  /** Exactly the sender that holds the mutex between steps is one that called SendPacket again. */
  ghost predicate HeldByRetrier(s: Outgoing) {
    && (s.holder.Some? ==> s.holder.value < |s.senders|)
    && forall i: nat | i < |s.senders| :: s.senders[i].Retrying? <==> s.holder == Some(i)
  }

  lemma {:induction false} HolderRetries(n: nat, acts: seq<Action>)
    requires Legal(n, acts)
    ensures HeldByRetrier(Run(n, acts)) && |Run(n, acts).senders| == n
  {
    if acts != [] {
      HolderRetries(n, acts[..|acts| - 1]);
    }
  }

  lemma {:induction false} FindsNoRoom(s: Outgoing, a: Action)
    requires Enabled(s, a) && Jammed(Apply(s, a))
    ensures a.Append? && Apply(s, a).holder == Some(a.i) && Apply(s, a).senders[a.i] == Retrying(a.packet)
    ensures Apply(s, a).buffer == s.buffer && Apply(s, a).sent == s.sent
  {
  }

  /** A sender that finds no room ends the run: it took no byte, up to it all is conserved, and it
      alone holds the mutex, for which every sender waits, itself included. */
  lemma {:induction false} JamIsLast(n: nat, acts: seq<Action>)
    requires Legal(n, acts) && Jammed(Run(n, acts))
    ensures acts != [] && acts[|acts| - 1].Append?
    ensures WholePackets(Run(n, acts), Packets(acts[..|acts| - 1]))
    ensures var s, a := Run(n, acts), acts[|acts| - 1];
            |s.senders| == n && HeldByRetrier(s) && s.holder == Some(a.i) && s.senders[a.i] == Retrying(a.packet)
    ensures forall a :: !Enabled(Run(n, acts), a)
  {
    var prefix, a := acts[..|acts| - 1], acts[|acts| - 1];
    Conservation(n, prefix);
    HolderRetries(n, acts);
    FindsNoRoom(Run(n, prefix), a);
    var batches, pending :| Splits(Run(n, prefix), Packets(prefix), batches, pending);
    assert Splits(Run(n, acts), Packets(prefix), batches, pending);
  }

  /** As bytes: everything handed to the socket, then the buffer, is everything appended. */
  lemma {:induction false} WholePacketsBytes(s: Outgoing, ps: seq<Packet>)
    requires WholePackets(s, ps)
    ensures Flatten(s.sent) + s.buffer == Flatten(ps)
  {
    var batches, pending :| Splits(s, ps, batches, pending);
    BatchesFlatten(s.sent, batches);
    FlattenAppend(Join(batches), pending);
  }

  /** At any moment, jammed or not, the socket has got a front part of the appended bytes. */
  lemma {:induction false} SentIsFront(n: nat, acts: seq<Action>)
    requires Legal(n, acts)
    ensures Flatten(Run(n, acts).sent) <= Flatten(Packets(acts))
  {
    var s := Run(n, acts);
    if Jammed(s) {
      var prefix := acts[..|acts| - 1];
      JamIsLast(n, acts);
      WholePacketsBytes(s, Packets(prefix));
      FlattenAppend(Packets(prefix), PacketsIn(acts[|acts| - 1]));
    } else {
      Conservation(n, acts);
      WholePacketsBytes(s, Packets(acts));
    }
  }

  /** All sends are over: nobody is between append and flush, and nobody jammed. */
  predicate Finished(s: Outgoing) {
    !Jammed(s) && forall i | 0 <= i < |s.senders| :: s.senders[i] == Outside
  }

  // ---- Someone always flushes ----

  function Unflushed(x: Sender): nat {
    if x.Appended? then x.size else 0
  }

  /** What the senders between their two sections have appended. */
  function InFlight(senders: seq<Sender>): nat {
    if senders == [] then 0 else InFlight(senders[..|senders| - 1]) + Unflushed(senders[|senders| - 1])
  }

  lemma {:induction false} InFlightUpdate(senders: seq<Sender>, i: nat, x: Sender)
    requires i < |senders|
    ensures InFlight(senders[i := x]) == InFlight(senders) - Unflushed(senders[i]) + Unflushed(x)
  {
    var n := |senders| - 1;
    if i == n {
      assert senders[i := x][..n] == senders[..n];
    } else {
      assert senders[i := x][..n] == senders[..n][i := x];
      InFlightUpdate(senders[..n], i, x);
    }
  }

  lemma {:induction false} NobodyInFlight(senders: seq<Sender>)
    requires forall i | 0 <= i < |senders| :: !senders[i].Appended?
    ensures InFlight(senders) == 0
  {
    if senders != [] {
      NobodyInFlight(senders[..|senders| - 1]);
    }
  }

  /** CurBytes never exceeds what the senders in flight appended, nor the buffer. */
  lemma {:induction false} BufferBounded(n: nat, acts: seq<Action>)
    requires Legal(n, acts)
    ensures var s := Run(n, acts);
            |s.senders| == n && |s.buffer| <= InFlight(s.senders) && |s.buffer| <= BUF_SIZE
  {
    if acts == [] {
      NobodyInFlight(Start(n).senders);
    } else {
      var prefix, a := acts[..|acts| - 1], acts[|acts| - 1];
      BufferBounded(n, prefix);
      var s := Run(n, prefix);
      match a
      case Append(i, packet) =>
        InFlightUpdate(s.senders, i, Appended(SizeOf(packet)));
        InFlightUpdate(s.senders, i, Retrying(packet));
      case Flush(i) => InFlightUpdate(s.senders, i, Outside);
    }
  }

  /** Somebody will flush: bytes in the buffer imply a sender that has appended and not flushed. */
  lemma {:induction false} SomeoneWillFlush(n: nat, acts: seq<Action>)
    requires Legal(n, acts) && Run(n, acts).buffer != []
    ensures var s := Run(n, acts); exists i | 0 <= i < |s.senders| :: s.senders[i].Appended?
  {
    var s := Run(n, acts);
    BufferBounded(n, acts);
    if forall i | 0 <= i < n :: !s.senders[i].Appended? {
      NobodyInFlight(s.senders);
    }
  }

  /** When no sender is in flight, everything ever appended has been handed to the socket. */
  lemma {:induction false} QuietMeansSent(n: nat, acts: seq<Action>)
    requires Legal(n, acts) && !Jammed(Run(n, acts))
    requires forall i | 0 <= i < |Run(n, acts).senders| :: !Run(n, acts).senders[i].Appended?
    ensures Run(n, acts).buffer == [] && Flatten(Run(n, acts).sent) == Flatten(Packets(acts))
  {
    var s := Run(n, acts);
    BufferBounded(n, acts);
    NobodyInFlight(s.senders);
    Conservation(n, acts);
    WholePacketsBytes(s, Packets(acts));
    assert Flatten(s.sent) + [] == Flatten(s.sent);
  }

  // ---- When the full-buffer branch can be taken ----

  predicate SizesAtMost(acts: seq<Action>, z: nat) {
    forall k | 0 <= k < |acts| && acts[k].Append? && InMemory(acts[k].packet) :: SizeOf(acts[k].packet) <= z
  }

  lemma {:induction false} InFlightAtMost(senders: seq<Sender>, z: nat)
    requires forall i | 0 <= i < |senders| && senders[i].Appended? :: senders[i].size <= z
    ensures InFlight(senders) <= |senders| * z
  {
    if senders != [] {
      InFlightAtMost(senders[..|senders| - 1], z);
      assert |senders| * z == (|senders| - 1) * z + z;
    }
  }

  lemma {:induction false} SenderSizes(n: nat, acts: seq<Action>, z: nat)
    requires Legal(n, acts) && SizesAtMost(acts, z)
    ensures forall i | 0 <= i < |Run(n, acts).senders| && Run(n, acts).senders[i].Appended? ::
              Run(n, acts).senders[i].size <= z
  {
    if acts != [] {
      var prefix := acts[..|acts| - 1];
      assert forall k | 0 <= k < |prefix| :: prefix[k] == acts[k];
      SenderSizes(n, prefix, z);
    }
  }

  lemma {:induction false} AppendFits(n: nat, acts: seq<Action>, z: nat, i: nat, packet: seq<byte>)
    requires Legal(n, acts) && SizesAtMost(acts, z) && Enabled(Run(n, acts), Append(i, packet))
    requires SizeOf(packet) <= z && n * z <= BUF_SIZE
    ensures |Run(n, acts).buffer| + SizeOf(packet) <= BUF_SIZE
  {
    var s := Run(n, acts);
    SenderSizes(n, acts, z);
    BufferBounded(n, acts);
    InFlightUpdate(s.senders, i, Appended(z));
    InFlightAtMost(s.senders[i := Appended(z)], z);
  }

  lemma {:induction false} NeverJams(n: nat, acts: seq<Action>, z: nat)
    requires Legal(n, acts) && SizesAtMost(acts, z) && n * z <= BUF_SIZE
    ensures !Jammed(Run(n, acts))
  {
    if acts != [] {
      var prefix, a := acts[..|acts| - 1], acts[|acts| - 1];
      assert forall k | 0 <= k < |prefix| :: prefix[k] == acts[k];
      NeverJams(n, prefix, z);
      if a.Append? {
        assert acts[|acts| - 1].Append?;
        AppendFits(n, prefix, z, a.i, a.packet);
      }
    }
  }

  /** A packet in memory whose header gives any size. */
  lemma {:induction false} PacketOfSize(z: uint32) returns (p: seq<byte>)
    ensures InMemory(p) && SizeOf(p) == z
  {
    p := EncodeUInt32(S_CHAT) + EncodeUInt32(z) + seq(HEADER_SIZE + z, _ => 0 as byte);
    assert p[4..8] == EncodeUInt32(z);
    UInt32RoundTrip(z);
  }

  lemma {:induction false} Extends(n: nat, acts: seq<Action>, a: Action)
    requires Legal(n, acts) && Enabled(Run(n, acts), a)
    ensures Legal(n, acts + [a]) && Run(n, acts + [a]) == Apply(Run(n, acts), a)
  {
    assert (acts + [a])[..|acts|] == acts;
  }

  /** The senders append one after another, nobody flushing, until one finds no room. */
  lemma {:induction false} AppendAll(n: nat, k: nat, p: seq<byte>, z: nat) returns (acts: seq<Action>)
    requires k <= n && InMemory(p) && SizeOf(p) == z
    ensures Legal(n, acts) && SizesAtMost(acts, z)
    ensures var s := Run(n, acts);
            Jammed(s) || (|s.senders| == n && |s.buffer| == k * z && forall i | k <= i < n :: s.senders[i] == Outside)
  {
    if k == 0 {
      acts := [];
    } else {
      acts := AppendAll(n, k - 1, p, z);
      var s := Run(n, acts);
      if !Jammed(s) {
        Extends(n, acts, Append(k - 1, p));
        acts := acts + [Append(k - 1, p)];
        assert k * z == (k - 1) * z + z;
      }
    }
  }

  /** The branch that retries while holding the mutex is unreachable in every run exactly when
      the buffer has room for one packet of the largest size from each sender. */
  lemma {:induction false} NoJamIff(n: nat, z: uint32)
    ensures (forall acts | Legal(n, acts) && SizesAtMost(acts, z) :: !Jammed(Run(n, acts))) <==> n * z <= 4096
  {
    if n * z <= BUF_SIZE {
      forall acts | Legal(n, acts) && SizesAtMost(acts, z) ensures !Jammed(Run(n, acts)) {
        NeverJams(n, acts, z);
      }
    } else {
      var p := PacketOfSize(z);
      var acts := AppendAll(n, n, p, z);
      BufferBounded(n, acts);
    }
  }

  /** Chat packets: seven concurrent senders always fit, eight may jam. */
  lemma {:induction false} ChatSenders(n: nat)
    ensures (forall acts | Legal(n, acts) && SizesAtMost(acts, CHAT_SIZE) :: !Jammed(Run(n, acts))) <==> n <= 7
  {
    NoJamIff(n, CHAT_SIZE);
  }
}
