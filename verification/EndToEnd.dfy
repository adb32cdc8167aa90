/** From SendPacket on the server to the handlers of the client. */
module EndToEnd {
  import opened Wire
  import opened Framing
  import opened MixedStream
  import opened Sending
  import opened ReceiveBuffer
  import opened ClientLoop
  import Broadcast
  import BroadcastSends

  /** End to end, for packets that the client handles: after any interleaving of finished sends,
      whatever chunks the sent stream arrives in, the client dispatches exactly the packets passed to
      SendPacket, in append order and each once, with nothing left over, if and only if each chunk
      fills its buffer or ends on a packet boundary. */
  lemma {:induction false} DeliveredIff(n: nat, acts: seq<Action>, deliveries: seq<seq<byte>>)
    requires Legal(n, acts) && Finished(Sending.Run(n, acts))
    requires forall p <- Packets(acts) :: Sendable(CLIENT_HANDLERS, p)
    requires Flatten(deliveries) == Flatten(Sending.Run(n, acts).sent)
    ensures var r := Framing.Run(CLIENT_HANDLERS, deliveries);
            !r.spinning && PacketsOf(r.fates) == Packets(acts) && r.retained == []
            <==> FillsOrMeetsBoundary(Packets(acts), Lengths(deliveries))
  {
    var stream := Flatten(deliveries);
    QuietMeansSent(n, acts);
    ParseConcatenation(CLIENT_HANDLERS, Packets(acts), []);
    assert Flatten(Packets(acts)) + [] == stream;
    assert Packets(acts) + [] == Packets(acts);
    assert ParseStream(CLIENT_HANDLERS, stream) == Parsed(Packets(acts), []);
    StreamEquivalenceIff(CLIENT_HANDLERS, deliveries);
    FillsOrEndsIffBoundaries(CLIENT_HANDLERS, Packets(acts), deliveries);
  }

  /** At any moment, jammed or not, of whatever part of a sent stream of packets that the client handles
      has arrived in such chunks, it has dispatched a front part of the packets passed to SendPacket. */
  lemma {:induction false} DeliveredInOrder(n: nat, acts: seq<Action>, deliveries: seq<seq<byte>>)
    requires Legal(n, acts) && Flatten(deliveries) <= Flatten(Sending.Run(n, acts).sent)
    requires forall p <- Packets(acts) :: Sendable(CLIENT_HANDLERS, p)
    requires FillsOrMeetsBoundary(Packets(acts), Lengths(deliveries))
    ensures var r := Framing.Run(CLIENT_HANDLERS, deliveries);
            !r.spinning && PacketsOf(r.fates) <= Packets(acts)
            && |r.retained| == |Flatten(deliveries)| - LastBoundary(Packets(acts), |Flatten(deliveries)|)
  {
    SentIsFront(n, acts);
    FillsOrEndsIffBoundaries(CLIENT_HANDLERS, Packets(acts), deliveries);
    StreamEquivalenceIff(CLIENT_HANDLERS, deliveries);
    RetainedSinceBoundary(CLIENT_HANDLERS, Packets(acts), deliveries);
  }

  // ---- Packets without handler ----

  /** End to end, for packets of any types: the finished sends arrive in batches of whole packets,
      each completion filling the buffer or ending a batch. The client dispatches exactly the packets
      it handles, in append order and each once, if and only if in no batch such a packet stands
      behind one that it does not handle. */
  lemma {:induction false} MixedDeliveredIff(n: nat, acts: seq<Action>, bs: seq<seq<Packet>>,
                                             bursts: seq<seq<seq<byte>>>)
    requires Legal(n, acts) && Finished(Sending.Run(n, acts))
    requires Join(bs) == Packets(acts) && Brings(CLIENT_HANDLERS, bs, bursts)
    ensures Flatten(Join(bursts)) == Flatten(Sending.Run(n, acts).sent)
    ensures PacketsOf(Framing.Run(CLIENT_HANDLERS, Join(bursts)).fates) == Handled(CLIENT_HANDLERS, Packets(acts))
            <==> forall i | 0 <= i < |bs| :: NoneHidden(CLIENT_HANDLERS, bs[i])
  {
    QuietMeansSent(n, acts);
    BringsBytes(CLIENT_HANDLERS, bs, bursts);
    MixedStreamIff(CLIENT_HANDLERS, bs, bursts);
  }

  /** The client has no handler for the answer to an account request. */
  lemma {:induction false} AccountReply(success: bool, info: seq<byte>, body: seq<byte>)
    requires |info| == 32 && |body| == 2 * MAX_ID_LEN
    ensures var p := EncodePacket(S_LOGIN, success, info, body);
            && WellFormed(p) && |p| == 92 && p[..8] == [4, 0, 0, 0, 92, 0, 0, 0]
            && !IsHandled(CLIENT_HANDLERS, p)
  {
    PacketRoundTrip(S_LOGIN, success, info, body);
    PacketLayout(S_LOGIN, success, info, body);
  }

  /** The client handles packets of one type only, whose number is 6. */
  lemma {:induction false} ClientHandlesIff(p: Packet)
    requires |p| >= HEADER_SIZE
    ensures IsHandled(CLIENT_HANDLERS, p) <==> p[..4] == [6, 0, 0, 0]
  {
    FieldsOf(p);
    assert p[..4] == [p[0], p[1], p[2], p[3]];
  }

  /** A packet without handler hides what arrives with it: two senders append such a packet and a
      chat, both go out in one flush and arrive in one chunk that ends on a packet boundary, and the
      client dispatches neither. */
  lemma {:induction false} ReplyHidesChat(reply: Packet, c: Chat) returns (acts: seq<Action>)
    requires WellFormed(reply) && !IsHandled(CLIENT_HANDLERS, reply) && c.Valid()
    requires |reply| + CHAT_SIZE < BUF_SIZE
    ensures Legal(2, acts) && Finished(Sending.Run(2, acts)) && Packets(acts) == [reply, EncodeChat(c)]
    ensures var chunk := reply + EncodeChat(c);
            && Sending.Run(2, acts).sent == [chunk, []]
            && FillsOrMeetsBoundary(Packets(acts), Lengths([chunk]))
            && PacketsOf(Framing.Run(CLIENT_HANDLERS, [chunk]).fates) == []
  {
    var chat := EncodeChat(c);
    ChatRoundTrip(c);
    acts := SendsTogether(reply, chat);
    var b, chunk := [reply, chat], reply + chat;
    FlattenTwo(reply, chat);
    OneCompletion(CLIENT_HANDLERS, b);
    BurstRun(CLIENT_HANDLERS, [], b, [chunk], []);
    assert [] + [chunk] == [chunk];
    WholeBoundary(b);
    assert Lengths([chunk]) == [|chunk|] && [|chunk|][..0] == [];
  }

  lemma {:induction false} FlattenTwo(p: Packet, q: Packet)
    ensures Flatten([p, q]) == p + q && Flatten([p + q]) == p + q
  {
    FlattenOne(p + q);
    FlattenOne(q);
    assert [p, q][1..] == [q];
  }

  lemma {:induction false} SendsOn(n: nat, acts: seq<Action>, a: Action)
    requires Legal(n, acts) && Enabled(Sending.Run(n, acts), a)
    ensures Legal(n, acts + [a]) && Sending.Run(n, acts + [a]) == Apply(Sending.Run(n, acts), a)
    ensures Packets(acts + [a]) == Packets(acts) + PacketsIn(a)
  {
    Extends(n, acts, a);
    assert (acts + [a])[..|acts|] == acts;
  }

  lemma {:induction false} TwoAppend(p: Packet, q: Packet) returns (acts: seq<Action>)
    requires WellFormed(p) && WellFormed(q) && |p| + |q| <= BUF_SIZE
    ensures Legal(2, acts) && Packets(acts) == [p, q]
    ensures Sending.Run(2, acts) == Outgoing(p + q, [Appended(|p|), Appended(|q|)], [], Sending.Start(2).holder)
  {
    assert Payload(p) == p && Payload(q) == q;
    SendsOn(2, [], Append(0, p));
    acts := [] + [Append(0, p)];
    assert Sending.Run(2, acts) == Outgoing(p, [Appended(|p|), Outside], [], Sending.Start(2).holder);
    SendsOn(2, acts, Append(1, q));
    acts := acts + [Append(1, q)];
  }

  /** Two senders append before either flushes. */
  lemma {:induction false} SendsTogether(p: Packet, q: Packet) returns (acts: seq<Action>)
    requires WellFormed(p) && WellFormed(q) && |p| + |q| <= BUF_SIZE
    ensures Legal(2, acts) && Finished(Sending.Run(2, acts)) && Packets(acts) == [p, q]
    ensures Sending.Run(2, acts).sent == [p + q, []]
  {
    acts := TwoAppend(p, q);
    SendsOn(2, acts, Flush(0));
    acts := acts + [Flush(0)];
    SendsOn(2, acts, Flush(1));
    acts := acts + [Flush(1)];
  }

  // ---- Chat messages ----

  /** Any 580 bytes that begin as a chat packet does are one to the client: it dispatches them, and the
      handler reads the id from bytes 44 to 68 and the text from what follows. */
  lemma {:induction false} ChatDispatched(d: seq<byte>)
    requires |d| == 580 && d[..8] == [6, 0, 0, 0, 0x44, 2, 0, 0]
    ensures ParseStream(CLIENT_HANDLERS, d) == Parsed([d], [])
    ensures HandlerCopy(d, d) == d && DecodeChat(d) == Chat(d[44..68], d[68..580])
  {
    ChatRead(d);
    WholePacket(CLIENT_HANDLERS, d);
  }

  /** The packets of chat messages. */
  function EncodeChats(cs: seq<Chat>): (ps: seq<Packet>)
    requires forall c <- cs :: c.Valid()
    ensures |ps| == |cs|
  {
    seq(|cs|, k requires 0 <= k < |cs| => EncodeChat(cs[k]))
  }

  lemma {:induction false} ChatsSendable(cs: seq<Chat>)
    requires forall c <- cs :: c.Valid()
    ensures forall p <- EncodeChats(cs) :: Sendable(CLIENT_HANDLERS, p)
    ensures forall k | 0 <= k < |cs| :: |EncodeChats(cs)[k]| == CHAT_SIZE && DecodeChat(EncodeChats(cs)[k]) == cs[k]
  {
    forall k | 0 <= k < |cs|
      ensures Sendable(CLIENT_HANDLERS, EncodeChats(cs)[k])
      ensures |EncodeChats(cs)[k]| == CHAT_SIZE && DecodeChat(EncodeChats(cs)[k]) == cs[k]
    {
      assert cs[k] in cs;
      ChatRoundTrip(cs[k]);
    }
  }

  lemma {:induction false} ChatArguments(cs: seq<Chat>, arguments: seq<seq<byte>>)
    requires (forall c <- cs :: c.Valid()) && ArgumentsMatch(EncodeChats(cs), arguments)
    ensures |arguments| == |cs|
    ensures forall k | 0 <= k < |cs| :: |arguments[k]| == CHAT_SIZE && DecodeChat(arguments[k]) == cs[k]
  {
    forall k | 0 <= k < |cs| ensures |arguments[k]| == CHAT_SIZE && DecodeChat(arguments[k]) == cs[k] {
      assert cs[k] in cs;
      ChatRoundTrip(cs[k]);
      var p := EncodeChats(cs)[k];
      assert SeesPacket(p, arguments[k]);
      assert StructSize(IOTypeOf(p)) == |p|;
      assert p[..|p|] == p;
    }
  }

  /** The messages that handlers decode from the packets they were given. */
  function DecodeChats(arguments: seq<seq<byte>>): (cs: seq<Chat>)
    ensures |cs| == |arguments|
  {
    seq(|arguments|, k requires 0 <= k < |arguments| =>
      if |arguments[k]| == CHAT_SIZE then DecodeChat(arguments[k]) else Chat([], []))
  }

  lemma {:induction false} DecodesChats(cs: seq<Chat>, arguments: seq<seq<byte>>)
    requires (forall c <- cs :: c.Valid()) && ArgumentsMatch(EncodeChats(cs), arguments)
    ensures DecodeChats(arguments) == cs
  {
    ChatArguments(cs, arguments);
  }

  /** The client's handlers are given the very chat messages that were sent, in append order. */
  method ReceiveChats(client: Client, ghost n: nat, ghost acts: seq<Action>, ghost chats: seq<Chat>,
                      deliveries: seq<seq<byte>>)
    returns (received: seq<Chat>)
    requires client.buffer.Valid() && client.buffer.Now() == FRESH_RECEIVER
    requires client.buffer.handled == CLIENT_HANDLERS
    requires Legal(n, acts) && Finished(Sending.Run(n, acts))
    requires (forall c <- chats :: c.Valid()) && Packets(acts) == EncodeChats(chats)
    requires Flatten(deliveries) == Flatten(Sending.Run(n, acts).sent) && Fits(CLIENT_HANDLERS, deliveries)
    requires FillsOrMeetsBoundary(Packets(acts), Lengths(deliveries))
    modifies client.buffer, client.buffer.data
    ensures received == chats
  {
    ChatsSendable(chats);
    DeliveredIff(n, acts, deliveries);
    client.ReceiveWork(deliveries);
    var arguments := client.buffer.arguments;
    DecodesChats(chats, arguments);
    received := DecodeChats(arguments);
  }

  // ---- Concurrent broadcasts ----

  lemma {:induction false} AllSendable(all: seq<Packet>, xs: seq<Packet>, ys: seq<Packet>)
    requires multiset(all) == multiset(xs) + multiset(ys)
    requires (forall p <- xs :: Sendable(CLIENT_HANDLERS, p)) && (forall p <- ys :: Sendable(CLIENT_HANDLERS, p))
    ensures forall p <- all :: Sendable(CLIENT_HANDLERS, p)
  {
    forall p <- all ensures Sendable(CLIENT_HANDLERS, p) {
      assert p in multiset(all);
    }
  }

  /** The packets `xs` and `ys`, in any order, were sent on one session. */
  lemma {:induction false} SessionReachesClient(n: nat, calls: seq<Action>, xs: seq<Packet>, ys: seq<Packet>,
                                                deliveries: seq<seq<byte>>)
    requires Legal(n, calls) && Finished(Sending.Run(n, calls))
    requires multiset(Packets(calls)) == multiset(xs) + multiset(ys)
    requires (forall p <- xs :: Sendable(CLIENT_HANDLERS, p)) && (forall p <- ys :: Sendable(CLIENT_HANDLERS, p))
    requires Flatten(deliveries) == Flatten(Sending.Run(n, calls).sent)
    requires FillsOrMeetsBoundary(Packets(calls), Lengths(deliveries))
    ensures PacketsOf(Framing.Run(CLIENT_HANDLERS, deliveries).fates) == Packets(calls)
  {
    AllSendable(Packets(calls), xs, ys);
    DeliveredIff(n, calls, deliveries);
  }

  /** From AllMessage to the client: broadcasts run concurrently, broadcast b carrying packet ps[b] of
      any type, beside replies of handlers, and all their SendPacket calls share the send buffers.
      Once the broadcasts and the replies to a session that all of them found are over, and its stream
      has come in batches, its client has dispatched exactly what it handles of all that was appended
      if and only if no such packet came behind one that it does not handle. Then each broadcast's
      packet is dispatched once, if handled; and if no reply is, in the order of the calls. */
  lemma {:induction false} BroadcastsReachClient<K(!new)>(ps: seq<Packet>, q: BroadcastSends.Quota,
                                                          moves: seq<BroadcastSends.Move<K>>, k: K,
                                                          bs: seq<seq<Packet>>, bursts: seq<seq<seq<byte>>>)
    requires BroadcastSends.Legal(ps, q, moves) && forall p <- ps :: WellFormed(p)
    requires var s := BroadcastSends.Run(ps, q, moves);
             && BroadcastSends.AllFound(s.cast, k) && BroadcastSends.RepliesOver(s, k, |ps|)
             && Join(bs) == Packets(BroadcastSends.CallsOn(s, k)) && Brings(CLIENT_HANDLERS, bs, bursts)
    ensures var s := BroadcastSends.Run(ps, q, moves);
            var calls := BroadcastSends.CallsOn(s, k);
            var replies := Handled(CLIENT_HANDLERS, BroadcastSends.From(calls, |ps|, BroadcastSends.Senders(ps, q)));
            var dispatched := PacketsOf(Framing.Run(CLIENT_HANDLERS, Join(bursts)).fates);
            var clear := forall i | 0 <= i < |bs| :: NoneHidden(CLIENT_HANDLERS, bs[i]);
            && Flatten(Join(bursts)) == Flatten(BroadcastSends.Buffer(s, k).sent)
            && (dispatched == Handled(CLIENT_HANDLERS, Packets(calls)) <==> clear)
            && (clear ==> multiset(dispatched) == multiset(Handled(CLIENT_HANDLERS, ps)) + multiset(replies))
            && (clear && replies == [] ==>
                  dispatched
                  == Handled(CLIENT_HANDLERS, BroadcastSends.Pick(ps, Broadcast.Received(s.cast.log, k))))
  {
    var s := BroadcastSends.Run(ps, q, moves);
    var calls, n := BroadcastSends.CallsOn(s, k), BroadcastSends.Senders(ps, q);
    BroadcastSends.AllReceived(ps, q, moves, k);
    MixedDeliveredIff(n, calls, bs, bursts);
    HandledOfBoth(CLIENT_HANDLERS, Packets(calls), ps, BroadcastSends.From(calls, |ps|, n));
    HandledFrom(n, calls, |ps|);
  }

  /** If none of the later senders sends a handled packet, the handled ones are those of the others. */
  lemma {:induction false} HandledFrom(n: nat, calls: seq<Action>, mid: nat)
    requires mid <= n && Legal(n, calls)
    ensures Handled(CLIENT_HANDLERS, BroadcastSends.From(calls, mid, n)) == [] ==>
              Handled(CLIENT_HANDLERS, Packets(calls))
              == Handled(CLIENT_HANDLERS, BroadcastSends.From(calls, 0, mid))
  {
    if calls != [] {
      var prefix, call := calls[..|calls| - 1], calls[|calls| - 1];
      HandledFrom(n, prefix, mid);
      HolderRetries(n, prefix);
      HandledAppend(CLIENT_HANDLERS, Packets(prefix), PacketsIn(call));
      var early, late := if call.i < mid then PacketsIn(call) else [], if call.i >= mid then PacketsIn(call) else [];
      HandledAppend(CLIENT_HANDLERS, BroadcastSends.From(prefix, 0, mid), early);
      HandledAppend(CLIENT_HANDLERS, BroadcastSends.From(prefix, mid, n), late);
    }
  }

  /** The same for broadcasts and replies that the client all handles, which may come in any chunks that
      fill the buffer or end on a packet boundary. */
  lemma {:induction false} HandledBroadcastsReachClient<K(!new)>(ps: seq<Packet>, q: BroadcastSends.Quota,
                                                                 moves: seq<BroadcastSends.Move<K>>,
                                                                 k: K, deliveries: seq<seq<byte>>)
    requires BroadcastSends.Legal(ps, q, moves) && forall p <- ps :: Sendable(CLIENT_HANDLERS, p)
    requires var s := BroadcastSends.Run(ps, q, moves);
             var calls := BroadcastSends.CallsOn(s, k);
             && BroadcastSends.AllFound(s.cast, k) && BroadcastSends.RepliesOver(s, k, |ps|)
             && (forall p <- BroadcastSends.From(calls, |ps|, BroadcastSends.Senders(ps, q)) ::
                   Sendable(CLIENT_HANDLERS, p))
             && Flatten(deliveries) == Flatten(BroadcastSends.Buffer(s, k).sent)
             && FillsOrMeetsBoundary(Packets(calls), Lengths(deliveries))
    ensures var s := BroadcastSends.Run(ps, q, moves);
            var calls := BroadcastSends.CallsOn(s, k);
            var dispatched := PacketsOf(Framing.Run(CLIENT_HANDLERS, deliveries).fates);
            && dispatched == Packets(calls)
            && BroadcastSends.From(calls, 0, |ps|) == BroadcastSends.Pick(ps, Broadcast.Received(s.cast.log, k))
            && multiset(dispatched)
               == multiset(ps) + multiset(BroadcastSends.From(calls, |ps|, BroadcastSends.Senders(ps, q)))
  {
    var s := BroadcastSends.Run(ps, q, moves);
    var calls := BroadcastSends.CallsOn(s, k);
    BroadcastSends.AllReceived(ps, q, moves, k);
    var n := BroadcastSends.Senders(ps, q);
    SessionReachesClient(n, calls, ps, BroadcastSends.From(calls, |ps|, n), deliveries);
  }
}
