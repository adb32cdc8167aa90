/** The read half of a connection: a fixed array, filled by receives and compacted in place. */
module ReceiveBuffer {
  import opened Bits
  import opened Wire
  import opened Framing

  /** How many bytes the handler of a packet type copies for itself: the size of its struct. */
  function StructSize(ioType: uint32): nat {
    if ioType == C_CHAT || ioType == S_CHAT then CHAT_SIZE
    else if ioType == C_MOVE then MOVE_SIZE
    else if ioType == C_CREATE_ACCOUNT || ioType == C_LOGIN then USER_INFO_SIZE
    else HEADER_SIZE
  }

  /** A handler sees the leading bytes of its packet whenever the packet is at least as long as
      the struct the handler copies. */
  predicate SeesPacket(p: Packet, argument: seq<byte>) {
    |p| >= HEADER_SIZE && |p| >= StructSize(IOTypeOf(p)) ==> argument == p[..StructSize(IOTypeOf(p))]
  }

  /** The struct copied for the handler of the packet in front of the stored bytes. */
  function HandlerCopy(unread: seq<byte>, stored: seq<byte>): seq<byte>
    requires |unread| >= HEADER_SIZE
  {
    var n := StructSize(IOTypeOf(unread));
    if n <= |stored| then stored[..n] else stored
  }

  predicate ArgumentsMatch(ps: seq<Packet>, arguments: seq<seq<byte>>) {
    |arguments| == |ps| && forall k | 0 <= k < |ps| :: SeesPacket(ps[k], arguments[k])
  }

  class ReceiveBuffer {
    const handled: set<uint32>
    const data: array<byte>
    var curBytes: nat
    var dataPointer: nat
    /** What each handler call was given, in dispatch order. */
    var arguments: seq<seq<byte>>
    ghost var fates: seq<Fate>

    ghost predicate Bounded()
      reads this
    {
      data.Length == BUF_SIZE && dataPointer <= curBytes <= BUF_SIZE
    }

    /** Between completions. */
    ghost predicate Valid()
      reads this
    {
      Bounded() && dataPointer == 0 && ArgumentsMatch(PacketsOf(fates), arguments)
    }

    ghost function Now(): Receiver
      requires Bounded()
      reads this, data
    {
      Receiver(data[dataPointer..curBytes], fates, false)
    }

    constructor (handled: set<uint32>)
      ensures Valid() && Now() == FRESH_RECEIVER && this.handled == handled && fresh(data)
    {
      this.handled := handled;
      data := new byte[BUF_SIZE](_ => 0);
      curBytes, dataPointer, arguments, fates := 0, 0, [], [];
    }

    /** The length of the next receive, which goes behind the retained bytes. */
    method ReadyToReceive() returns (length: nat)
      requires Valid()
      ensures length == BUF_SIZE - |Now().retained|
    {
      length := BUF_SIZE - curBytes;
    }

    /** Copies the struct out of the buffer for the handler and advances past the packet. */
    method HandleData(size: nat)
      requires Bounded() && HEADER_SIZE <= curBytes - dataPointer && size <= curBytes - dataPointer
      requires ArgumentsMatch(PacketsOf(fates), arguments)
      modifies this`arguments, this`dataPointer, this`fates
      ensures dataPointer == old(dataPointer) + size && Bounded()
      ensures fates == old(fates) + [Dispatched(old(data[dataPointer..curBytes])[..size])]
      ensures ArgumentsMatch(PacketsOf(fates), arguments)
    {
      var unread, stored := data[dataPointer..curBytes], data[dataPointer..];
      assert unread == stored[..|unread|];
      ArgumentSeen(unread, stored, size);
      ArgumentsPush(fates, arguments, unread[..size], HandlerCopy(unread, stored));
      arguments := arguments + [HandlerCopy(unread, stored)];
      fates := fates + [Dispatched(unread[..size])];
      dataPointer := dataPointer + size;
    }

    /** Moves the unread bytes to the front, one byte at a time in ascending order. */
    method ShiftDown()
      requires Bounded()
      modifies data
      ensures data[..curBytes - dataPointer] == old(data[dataPointer..curBytes])
    {
      var n := curBytes - dataPointer;
      for i := 0 to n
        invariant forall k | 0 <= k < i :: data[k] == old(data[dataPointer + k])
        invariant forall k | i <= k < BUF_SIZE :: data[k] == old(data[k])
      {
        data[i] := data[dataPointer + i];
      }
    }

    /** The bytes of a completed receive, placed behind the retained ones. */
    method Fill(chunk: seq<byte>)
      requires Bounded() && dataPointer == 0 && |chunk| <= BUF_SIZE - curBytes
      modifies this`curBytes, data
      ensures Bounded() && data[..curBytes] == old(data[..curBytes]) + chunk
    {
      forall k | 0 <= k < |chunk| {
        data[curBytes + k] := chunk[k];
      }
      curBytes := curBytes + |chunk|;
    }

    /** The dispatch loop. */
    method DispatchPackets()
      requires Bounded() && dataPointer == 0 && ArgumentsMatch(PacketsOf(fates), arguments)
      requires ParseStream(handled, data[..curBytes]).Parsed?
      modifies this`arguments, this`dataPointer, this`fates
      ensures Bounded() && ArgumentsMatch(PacketsOf(fates), arguments)
      ensures var p := ParseStream(handled, data[..curBytes]);
              fates == old(fates) + Dispatches(p.packets) && data[dataPointer..curBytes] == p.rest
    {
      ghost var whole := ParseStream(handled, data[..curBytes]);
      ghost var packets: seq<Packet> := [];
      EmptyPrefix(fates, whole);
      assert data[dataPointer..curBytes] == data[..curBytes];
      while dataPointer < curBytes
        invariant Bounded() && ArgumentsMatch(PacketsOf(fates), arguments)
        invariant fates == old(fates) + Dispatches(packets)
        invariant whole == Prepended(packets, ParseStream(handled, data[dataPointer..curBytes]))
        decreases curBytes - dataPointer
      {
        var unread := data[dataPointer..curBytes];
        if curBytes - dataPointer < HEADER_SIZE {
          break;
        }
        var size := SizeOf(unread);
        if curBytes - dataPointer < size {
          break;
        }
        if IOTypeOf(unread) in handled {
          LoopAdvances(handled, whole, packets, unread);
          HandleData(size);
          assert data[dataPointer..curBytes] == unread[size..];
          DispatchesPush(old(fates), packets, unread[..size]);
          packets := packets + [unread[..size]];
        } else {
          break;
        }
      }
      LoopStopped(handled, data[dataPointer..curBytes], packets);
    }

    /** The buffer is compacted when it is exactly full and cleared otherwise. */
    method Settle()
      requires Bounded() && ArgumentsMatch(PacketsOf(fates), arguments)
      modifies this`curBytes, this`dataPointer, this`fates, data
      ensures Valid()
      ensures var tail, full := old(data[dataPointer..curBytes]), old(curBytes) == BUF_SIZE;
              fates == old(fates) + Lost(full, tail) && data[..curBytes] == Kept(full, tail)
    {
      ghost var tail := data[dataPointer..curBytes];
      TailAccounts(fates, curBytes == BUF_SIZE, tail);
      fates := fates + Lost(curBytes == BUF_SIZE, tail);
      if curBytes == BUF_SIZE {
        ShiftDown();
        curBytes := BUF_SIZE - dataPointer;
        dataPointer := 0;
      } else {
        curBytes := 0;
        dataPointer := 0;
      }
    }

    /** A completed receive of `chunk`. A stream that makes the dispatch loop spin for ever is
        excluded: the call does not return on it. */
    method OnRecv(chunk: seq<byte>)
      requires Valid() && |chunk| <= BUF_SIZE - curBytes
      requires !Complete(handled, Now(), chunk).spinning
      modifies this, data
      ensures Valid()
      ensures Now() == Complete(handled, old(Now()), chunk)
    {
      CompleteParses(handled, Now(), chunk);
      assert data[dataPointer..curBytes] == data[..curBytes];
      Fill(chunk);
      DispatchPackets();
      Settle();
      assert data[dataPointer..curBytes] == data[..curBytes];
    }
  }

  /** What a handler copies from the stored bytes is its packet's front, if it fits the packet. */
  lemma {:induction false} ArgumentSeen(unread: seq<byte>, stored: seq<byte>, size: nat)
    requires HEADER_SIZE <= |unread| <= |stored| && size <= |unread| && unread == stored[..|unread|]
    ensures SeesPacket(unread[..size], HandlerCopy(unread, stored))
  {
    var p := unread[..size];
    if size >= HEADER_SIZE {
      assert p[0..4] == unread[0..4];
    }
  }

  lemma {:induction false} ArgumentsPush(fs: seq<Fate>, arguments: seq<seq<byte>>, p: Packet, argument: seq<byte>)
    requires ArgumentsMatch(PacketsOf(fs), arguments) && SeesPacket(p, argument)
    ensures ArgumentsMatch(PacketsOf(fs + [Dispatched(p)]), arguments + [argument])
  {
    AllBytesPush(fs, Dispatched(p));
    var ps := PacketsOf(fs);
    forall k | 0 <= k < |ps + [p]| ensures SeesPacket((ps + [p])[k], (arguments + [argument])[k]) {
      assert k < |ps| ==> SeesPacket(ps[k], arguments[k]);
    }
  }

  /** Dispatching the packet in front takes the parse one packet further. */
  lemma {:induction false} LoopAdvances(handled: set<uint32>, whole: Parse, packets: seq<Packet>, rest: seq<byte>)
    requires whole.Parsed? && whole == Prepended(packets, ParseStream(handled, rest))
    requires |rest| >= HEADER_SIZE && SizeOf(rest) <= |rest| && IOTypeOf(rest) in handled
    ensures SizeOf(rest) > 0
    ensures whole == Prepended(packets + [rest[..SizeOf(rest)]], ParseStream(handled, rest[SizeOf(rest)..]))
  {
    PrependedTwice(packets, [rest[..SizeOf(rest)]], ParseStream(handled, rest[SizeOf(rest)..]));
  }

  lemma {:induction false} EmptyPrefix(fs: seq<Fate>, p: Parse)
    ensures Prepended([], p) == p && fs + Dispatches([]) == fs
  {
    if p.Parsed? {
      assert [] + p.packets == p.packets;
    }
  }

  /** Where the loop stops, the parser stops. */
  lemma {:induction false} LoopStopped(handled: set<uint32>, rest: seq<byte>, packets: seq<Packet>)
    requires |rest| < HEADER_SIZE || |rest| < SizeOf(rest) || IOTypeOf(rest) !in handled
    ensures Prepended(packets, ParseStream(handled, rest)) == Parsed(packets, rest)
  {
    assert packets + [] == packets;
  }
}
