/**
 * Framing of a byte stream into packets: the reference parser of a whole stream, the run of a
 * receiver that gets the stream in chunks through a fixed buffer, and when the two agree.
 */
module Framing {
  import opened Bits
  import opened Wire

  // ---- The reference parser ----

  /** `Parsed`: the packets cut off the front, and what is left. `Endless`: the loop reaches a
      handled header of Size 0, on which it makes no progress. */
  datatype Parse = Parsed(packets: seq<Packet>, rest: seq<byte>) | Endless

  /** Cuts off packets while a complete packet of a handled type is in front. */
  function ParseStream(handled: set<uint32>, d: seq<byte>): Parse
    decreases |d|
  {
    if |d| < HEADER_SIZE || |d| < SizeOf(d) || IOTypeOf(d) !in handled then Parsed([], d)
    else if SizeOf(d) == 0 then Endless
    else Prepended([d[..SizeOf(d)]], ParseStream(handled, d[SizeOf(d)..]))
  }

  function Prepended(ps: seq<Packet>, p: Parse): Parse {
    if p.Endless? then Endless else Parsed(ps + p.packets, p.rest)
  }

  /** The front of `d` is a complete, handled, non-empty packet. */
  predicate PacketInFront(handled: set<uint32>, d: seq<byte>) {
    |d| >= HEADER_SIZE && 0 < SizeOf(d) <= |d| && IOTypeOf(d) in handled
  }

  lemma {:induction false} CutsFront(handled: set<uint32>, d: seq<byte>)
    requires PacketInFront(handled, d)
    ensures ParseStream(handled, d) == Prepended([d[..SizeOf(d)]], ParseStream(handled, d[SizeOf(d)..]))
  {
  }

  /** A complete packet alone is cut off, and nothing is left. */
  lemma {:induction false} WholePacket(handled: set<uint32>, d: seq<byte>)
    requires PacketInFront(handled, d) && SizeOf(d) == |d|
    ensures ParseStream(handled, d) == Parsed([d], [])
  {
    CutsFront(handled, d);
    assert d[..|d|] == d && d[|d|..] == [];
  }

  lemma {:induction false} PrependedTwice(ps: seq<Packet>, qs: seq<Packet>, p: Parse)
    ensures Prepended(ps, Prepended(qs, p)) == Prepended(ps + qs, p)
  {
    if p.Parsed? {
      assert ps + (qs + p.packets) == (ps + qs) + p.packets;
    }
  }

  /** Parsing loses, adds and reorders no byte. */
  lemma {:induction false} ParseKeepsBytes(handled: set<uint32>, d: seq<byte>)
    requires ParseStream(handled, d).Parsed?
    ensures var p := ParseStream(handled, d); Flatten(p.packets) + p.rest == d
    decreases |d|
  {
    if PacketInFront(handled, d) {
      var n := SizeOf(d);
      CutsFront(handled, d);
      ParseKeepsBytes(handled, d[n..]);
      var q := ParseStream(handled, d[n..]);
      FlattenFront(d[..n], q.packets, q.rest);
      assert d == d[..n] + d[n..];
    }
  }

  /** The parser stops only where no packet is in front. */
  lemma {:induction false} ParseStops(handled: set<uint32>, d: seq<byte>)
    requires ParseStream(handled, d).Parsed?
    ensures ParseStream(handled, ParseStream(handled, d).rest) == Parsed([], ParseStream(handled, d).rest)
    decreases |d|
  {
    if PacketInFront(handled, d) {
      ParseStops(handled, d[SizeOf(d)..]);
    }
  }

  lemma {:induction false} FrontUnaffected(d: seq<byte>, e: seq<byte>)
    requires |d| >= HEADER_SIZE
    ensures SizeOf(d + e) == SizeOf(d) && IOTypeOf(d + e) == IOTypeOf(d)
  {
    assert (d + e)[0..4] == d[0..4];
    assert (d + e)[4..8] == d[4..8];
  }

  /** Parsing may stop anywhere and resume on the rest once more bytes have come. */
  lemma {:induction false} ParseResumes(handled: set<uint32>, d: seq<byte>, e: seq<byte>)
    ensures var p := ParseStream(handled, d);
            ParseStream(handled, d + e) ==
              if p.Endless? then Endless else Prepended(p.packets, ParseStream(handled, p.rest + e))
    decreases |d|
  {
    if |d| >= HEADER_SIZE {
      FrontUnaffected(d, e);
    }
    if PacketInFront(handled, d) {
      var n := SizeOf(d);
      assert (d + e)[..n] == d[..n];
      assert (d + e)[n..] == d[n..] + e;
      ParseResumes(handled, d[n..], e);
      var q := ParseStream(handled, d[n..]);
      if q.Parsed? {
        PrependedTwice([d[..n]], q.packets, ParseStream(handled, q.rest + e));
      }
    } else if ParseStream(handled, d).Parsed? {
      var q := ParseStream(handled, d + e);
      assert q.Parsed? ==> [] + q.packets == q.packets;
    }
  }

  /** A packet that `handled` accepts and that its header describes. */
  predicate Sendable(handled: set<uint32>, p: Packet) {
    WellFormed(p) && IOTypeOf(p) in handled
  }

  /** Round trip: the parser undoes the concatenation of well-formed packets. */
  lemma {:induction false} ParseConcatenation(handled: set<uint32>, ps: seq<Packet>, tail: seq<byte>)
    requires forall p <- ps :: Sendable(handled, p)
    ensures ParseStream(handled, Flatten(ps) + tail) == Prepended(ps, ParseStream(handled, tail))
  {
    if ps == [] {
      assert Flatten(ps) + tail == tail;
      var q := ParseStream(handled, tail);
      assert q.Parsed? ==> ps + q.packets == q.packets;
    } else {
      var p, d := ps[0], Flatten(ps[1..]) + tail;
      assert p in ps && forall q <- ps[1..] :: q in ps;
      assert ps == [p] + ps[1..];
      FlattenFront(p, ps[1..], tail);
      FrontUnaffected(p, d);
      assert (p + d)[..|p|] == p && (p + d)[|p|..] == d;
      ParseConcatenation(handled, ps[1..], tail);
      PrependedTwice([p], ps[1..], ParseStream(handled, tail));
      assert [p] + ps[1..] == ps;
    }
  }

  /** A packet without handler blocks the stream: the packets before it are cut off, it and all that
      follows are left. */
  lemma {:induction false} UnhandledBlocks(handled: set<uint32>, ps: seq<Packet>, p: Packet, later: seq<byte>)
    requires (forall q <- ps :: Sendable(handled, q)) && WellFormed(p) && IOTypeOf(p) !in handled
    ensures ParseStream(handled, Flatten(ps) + (p + later)) == Parsed(ps, p + later)
  {
    var d := p + later;
    FrontUnaffected(p, later);
    StopsUnhandled(handled, d);
    ParseConcatenation(handled, ps, d);
    assert ps + [] == ps;
  }

  /** A handled header that announces no bytes makes the loop spin, whatever was cut off before it. */
  lemma {:induction false} SizeZeroSpins(handled: set<uint32>, ps: seq<Packet>, d: seq<byte>)
    requires forall q <- ps :: Sendable(handled, q)
    requires |d| >= HEADER_SIZE && SizeOf(d) == 0 && IOTypeOf(d) in handled
    ensures ParseStream(handled, Flatten(ps) + d) == Endless
  {
    ParseConcatenation(handled, ps, d);
  }

  lemma {:induction false} StopsUnhandled(handled: set<uint32>, d: seq<byte>)
    requires |d| >= HEADER_SIZE && IOTypeOf(d) !in handled
    ensures ParseStream(handled, d) == Parsed([], d)
  {
  }

  /** Every packet cut off has at least one byte, so dispatches are bounded by bytes; with
      honest sizes, by bytes over the header size. */
  lemma {:induction false} ParseIsBounded(handled: set<uint32>, d: seq<byte>)
    requires ParseStream(handled, d).Parsed?
    ensures |ParseStream(handled, d).packets| <= |d|
    ensures (forall p <- ParseStream(handled, d).packets :: |p| >= HEADER_SIZE) ==>
              HEADER_SIZE * |ParseStream(handled, d).packets| <= |d|
    decreases |d|
  {
    if PacketInFront(handled, d) {
      ParseIsBounded(handled, d[SizeOf(d)..]);
      var p, q := ParseStream(handled, d), ParseStream(handled, d[SizeOf(d)..]);
      assert p.packets[0] == d[..SizeOf(d)] && p.packets[1..] == q.packets;
    }
  }

  // ---- The receiver ----

  /** What became of received bytes that left the buffer. */
  datatype Fate = Dispatched(packet: Packet) | Dropped(tail: seq<byte>)

  /** A receiver between two completions: the bytes retained at the front of its buffer, and the
      history of what left it. `spinning`: its dispatch loop has stopped making progress. */
  datatype Receiver = Receiver(retained: seq<byte>, fates: seq<Fate>, spinning: bool)

  const FRESH_RECEIVER := Receiver([], [], false)

  function Dispatches(ps: seq<Packet>): (fs: seq<Fate>)
    ensures |fs| == |ps|
  {
    seq(|ps|, i requires 0 <= i < |ps| => Dispatched(ps[i]))
  }

  /** The undispatched tail stays when the buffer is full, and is dropped otherwise. */
  function Kept(full: bool, tail: seq<byte>): seq<byte> {
    if full then tail else []
  }

  function Lost(full: bool, tail: seq<byte>): seq<Fate> {
    if full || tail == [] then [] else [Dropped(tail)]
  }

  /** One completion appends `chunk`, dispatches what it can, and keeps the remaining tail only
      when the buffer is exactly full. */
  function Complete(handled: set<uint32>, r: Receiver, chunk: seq<byte>): Receiver {
    if r.spinning then r
    else
      var d := r.retained + chunk;
      match ParseStream(handled, d)
      case Endless => r.(spinning := true)
      case Parsed(ps, tail) =>
        var full := |d| == BUF_SIZE;
        Receiver(Kept(full, tail), r.fates + Dispatches(ps) + Lost(full, tail), false)
  }

  function Run(handled: set<uint32>, chunks: seq<seq<byte>>): Receiver {
    if chunks == [] then FRESH_RECEIVER
    else Complete(handled, Run(handled, chunks[..|chunks| - 1]), chunks[|chunks| - 1])
  }

  /** Every chunk fits the length posted for it: what the retained bytes leave free. */
  predicate Fits(handled: set<uint32>, chunks: seq<seq<byte>>) {
    chunks == []
    || (var prefix, chunk := chunks[..|chunks| - 1], chunks[|chunks| - 1];
        Fits(handled, prefix) && |chunk| <= BUF_SIZE - |Run(handled, prefix).retained|)
  }

  function PacketsOf(fs: seq<Fate>): seq<Packet> {
    if fs == [] then []
    else PacketsOf(fs[..|fs| - 1]) + match fs[|fs| - 1] case Dispatched(p) => [p] case Dropped(_) => []
  }

  function BytesOf(f: Fate): seq<byte> {
    match f case Dispatched(p) => p case Dropped(t) => t
  }

  function AllBytes(fs: seq<Fate>): seq<byte> {
    if fs == [] then [] else AllBytes(fs[..|fs| - 1]) + BytesOf(fs[|fs| - 1])
  }

  lemma {:induction false} AllBytesPush(fs: seq<Fate>, f: Fate)
    ensures AllBytes(fs + [f]) == AllBytes(fs) + BytesOf(f)
    ensures PacketsOf(fs + [f]) == PacketsOf(fs) + match f case Dispatched(p) => [p] case Dropped(_) => []
  {
    assert (fs + [f])[..|fs|] == fs;
  }

  lemma {:induction false} DispatchesPush(fs: seq<Fate>, ps: seq<Packet>, p: Packet)
    ensures fs + Dispatches(ps + [p]) == (fs + Dispatches(ps)) + [Dispatched(p)]
  {
  }

  lemma {:induction false} OneMoreDispatched(fs: seq<Fate>, ps: seq<Packet>, p: Packet)
    requires AllBytes(fs + Dispatches(ps)) == AllBytes(fs) + Flatten(ps)
    requires PacketsOf(fs + Dispatches(ps)) == PacketsOf(fs) + ps
    ensures AllBytes(fs + Dispatches(ps + [p])) == AllBytes(fs) + Flatten(ps + [p])
    ensures PacketsOf(fs + Dispatches(ps + [p])) == PacketsOf(fs) + (ps + [p])
  {
    DispatchesPush(fs, ps, p);
    AllBytesPush(fs + Dispatches(ps), Dispatched(p));
    FlattenPush(ps, p);
    Associative(AllBytes(fs), Flatten(ps), p);
    assert PacketsOf(fs) + ps + [p] == PacketsOf(fs) + (ps + [p]);
  }

  lemma {:induction false} DispatchesAppended(fs: seq<Fate>, ps: seq<Packet>)
    ensures AllBytes(fs + Dispatches(ps)) == AllBytes(fs) + Flatten(ps)
    ensures PacketsOf(fs + Dispatches(ps)) == PacketsOf(fs) + ps
  {
    if ps == [] {
      assert fs + Dispatches(ps) == fs;
    } else {
      var n := |ps| - 1;
      DispatchesAppended(fs, ps[..n]);
      OneMoreDispatched(fs, ps[..n], ps[n]);
      assert ps == ps[..n] + [ps[n]];
    }
  }

  lemma {:induction false} TailAccounts(fs: seq<Fate>, full: bool, tail: seq<byte>)
    ensures AllBytes(fs + Lost(full, tail)) + Kept(full, tail) == AllBytes(fs) + tail
    ensures PacketsOf(fs + Lost(full, tail)) == PacketsOf(fs)
  {
    if full || tail == [] {
      assert fs + Lost(full, tail) == fs;
    } else {
      AllBytesPush(fs, Dropped(tail));
    }
  }

  /** A completion that does not spin parses the buffer and settles its tail. */
  lemma {:induction false} CompleteParses(handled: set<uint32>, r: Receiver, chunk: seq<byte>)
    requires !Complete(handled, r, chunk).spinning
    ensures !r.spinning && ParseStream(handled, r.retained + chunk).Parsed?
    ensures var d, r' := r.retained + chunk, Complete(handled, r, chunk);
            var p := ParseStream(handled, d);
            && r'.fates == r.fates + Dispatches(p.packets) + Lost(|d| == BUF_SIZE, p.rest)
            && r'.retained == Kept(|d| == BUF_SIZE, p.rest)
  {
  }

  lemma {:induction false} CompleteAccounts(handled: set<uint32>, r: Receiver, chunk: seq<byte>)
    requires !Complete(handled, r, chunk).spinning
    ensures !r.spinning && ParseStream(handled, r.retained + chunk).Parsed?
    ensures var r' := Complete(handled, r, chunk);
            && AllBytes(r'.fates) + r'.retained == AllBytes(r.fates) + (r.retained + chunk)
            && PacketsOf(r'.fates) == PacketsOf(r.fates) + ParseStream(handled, r.retained + chunk).packets
  {
    CompleteParses(handled, r, chunk);
    var d := r.retained + chunk;
    ParseKeepsBytes(handled, d);
    FatesAccount(r.fates, ParseStream(handled, d), |d| == BUF_SIZE);
  }

  lemma {:induction false} FatesAccount(fs: seq<Fate>, p: Parse, full: bool)
    requires p.Parsed?
    ensures AllBytes(fs + Dispatches(p.packets) + Lost(full, p.rest)) + Kept(full, p.rest)
            == AllBytes(fs) + (Flatten(p.packets) + p.rest)
    ensures PacketsOf(fs + Dispatches(p.packets) + Lost(full, p.rest)) == PacketsOf(fs) + p.packets
  {
    DispatchesAppended(fs, p.packets);
    TailAccounts(fs + Dispatches(p.packets), full, p.rest);
    Associative(AllBytes(fs), Flatten(p.packets), p.rest);
  }

  lemma {:induction false} Associative(a: seq<byte>, b: seq<byte>, c: seq<byte>)
    ensures a + b + c == a + (b + c)
  {
  }

  lemma {:induction false} AccountsExtend(handled: set<uint32>, r: Receiver, stream: seq<byte>, chunk: seq<byte>)
    requires !Complete(handled, r, chunk).spinning && AllBytes(r.fates) + r.retained == stream
    ensures var r' := Complete(handled, r, chunk); AllBytes(r'.fates) + r'.retained == stream + chunk
  {
    CompleteAccounts(handled, r, chunk);
    Associative(AllBytes(r.fates), r.retained, chunk);
  }

  /** Exact accounting for any chunking: every received byte is, in order, in one dispatched
      packet, in one dropped tail, or in the retained prefix. */
  lemma {:induction false} EveryByteAccounted(handled: set<uint32>, chunks: seq<seq<byte>>)
    requires !Run(handled, chunks).spinning
    ensures var r := Run(handled, chunks); AllBytes(r.fates) + r.retained == Flatten(chunks)
  {
    if chunks != [] {
      var prefix, chunk := chunks[..|chunks| - 1], chunks[|chunks| - 1];
      CompleteParses(handled, Run(handled, prefix), chunk);
      EveryByteAccounted(handled, prefix);
      AccountsExtend(handled, Run(handled, prefix), Flatten(prefix), chunk);
      FlattenLast(chunks);
    }
  }

  /** The buffer never overflows. */
  lemma {:induction false} RetainedFits(handled: set<uint32>, chunks: seq<seq<byte>>)
    requires Fits(handled, chunks)
    ensures |Run(handled, chunks).retained| <= BUF_SIZE
  {
    if chunks != [] {
      var prefix, chunk := chunks[..|chunks| - 1], chunks[|chunks| - 1];
      RetainedFits(handled, prefix);
      var d := Run(handled, prefix).retained + chunk;
      if ParseStream(handled, d).Parsed? {
        ParseKeepsBytes(handled, d);
      }
    }
  }

  // ---- Agreement with the reference parser ----

  /** The receiver has dispatched exactly the packets of the stream and retains exactly its rest. */
  predicate Agrees(handled: set<uint32>, chunks: seq<seq<byte>>) {
    var r := Run(handled, chunks);
    !r.spinning && ParseStream(handled, Flatten(chunks)) == Parsed(PacketsOf(r.fates), r.retained)
  }

  /** Whether completing with `chunk` fills the buffer or ends on a packet boundary. */
  predicate FillsOrEndsWith(handled: set<uint32>, r: Receiver, chunk: seq<byte>) {
    var p := ParseStream(handled, r.retained + chunk);
    p.Parsed? && (|r.retained + chunk| == BUF_SIZE || p.rest == [])
  }

  /** Each completion either fills the buffer or ends on a packet boundary. */
  predicate FillsOrEnds(handled: set<uint32>, chunks: seq<seq<byte>>) {
    chunks == []
    || (var prefix := chunks[..|chunks| - 1];
        FillsOrEnds(handled, prefix) && FillsOrEndsWith(handled, Run(handled, prefix), chunks[|chunks| - 1]))
  }

  lemma {:induction false} CompleteAgrees(handled: set<uint32>, r: Receiver, stream: seq<byte>, chunk: seq<byte>)
    requires !r.spinning && ParseStream(handled, stream) == Parsed(PacketsOf(r.fates), r.retained)
    requires FillsOrEndsWith(handled, r, chunk)
    ensures var r' := Complete(handled, r, chunk);
            !r'.spinning && ParseStream(handled, stream + chunk) == Parsed(PacketsOf(r'.fates), r'.retained)
  {
    CompleteParses(handled, r, chunk);
    CompleteAccounts(handled, r, chunk);
    ParseResumes(handled, stream, chunk);
  }

  lemma {:induction false} FillsOrEndsAgrees(handled: set<uint32>, chunks: seq<seq<byte>>)
    requires FillsOrEnds(handled, chunks)
    ensures Agrees(handled, chunks)
  {
    if chunks != [] {
      var prefix, chunk := chunks[..|chunks| - 1], chunks[|chunks| - 1];
      FillsOrEndsAgrees(handled, prefix);
      CompleteAgrees(handled, Run(handled, prefix), Flatten(prefix), chunk);
      FlattenLast(chunks);
    }
  }

  function DroppedBytes(fs: seq<Fate>): nat {
    if fs == [] then 0
    else DroppedBytes(fs[..|fs| - 1]) + match fs[|fs| - 1] case Dispatched(_) => 0 case Dropped(t) => |t|
  }

  lemma {:induction false} DroppedBytesAppend(fs: seq<Fate>, gs: seq<Fate>)
    ensures DroppedBytes(fs + gs) == DroppedBytes(fs) + DroppedBytes(gs)
  {
    if gs == [] {
      assert fs + gs == fs;
    } else {
      assert (fs + gs)[..|fs + gs| - 1] == fs + gs[..|gs| - 1];
      DroppedBytesAppend(fs, gs[..|gs| - 1]);
    }
  }

  lemma {:induction false} DispatchesDropNothing(ps: seq<Packet>)
    ensures DroppedBytes(Dispatches(ps)) == 0
  {
    if ps != [] {
      assert Dispatches(ps)[..|ps| - 1] == Dispatches(ps[..|ps| - 1]);
      DispatchesDropNothing(ps[..|ps| - 1]);
    }
  }

  /** Dispatched and dropped bytes add up. */
  lemma {:induction false} BytesAddUp(fs: seq<Fate>)
    ensures |AllBytes(fs)| == |Flatten(PacketsOf(fs))| + DroppedBytes(fs)
  {
    if fs != [] {
      BytesAddUp(fs[..|fs| - 1]);
      match fs[|fs| - 1]
      case Dispatched(p) => FlattenPush(PacketsOf(fs[..|fs| - 1]), p);
      case Dropped(_) =>
        assert PacketsOf(fs) == PacketsOf(fs[..|fs| - 1]);
    }
  }

  /** Nothing is dropped in a run exactly when each completion fills the buffer or ends on a
      packet boundary: a tail is dropped only by a completion that leaves the buffer not full. */
  lemma {:induction false} NothingDroppedIff(handled: set<uint32>, chunks: seq<seq<byte>>)
    requires !Run(handled, chunks).spinning
    ensures DroppedBytes(Run(handled, chunks).fates) == 0 <==> FillsOrEnds(handled, chunks)
  {
    if chunks != [] {
      var prefix, chunk := chunks[..|chunks| - 1], chunks[|chunks| - 1];
      var r := Run(handled, prefix);
      CompleteAccounts(handled, r, chunk);
      NothingDroppedIff(handled, prefix);
      var d := r.retained + chunk;
      var p := ParseStream(handled, d);
      var lost := Lost(|d| == BUF_SIZE, p.rest);
      DispatchesDropNothing(p.packets);
      DroppedBytesAppend(r.fates, Dispatches(p.packets));
      DroppedBytesAppend(r.fates + Dispatches(p.packets), lost);
      assert DroppedBytes(lost) == if lost == [] then 0 else |p.rest|;
    }
  }

  /** Stream equivalence, exactly: the chunked receiver dispatches the packets of the whole stream
      and retains its rest if and only if each completion fills the buffer or ends on a packet
      boundary. */
  lemma {:induction false} StreamEquivalenceIff(handled: set<uint32>, chunks: seq<seq<byte>>)
    ensures Agrees(handled, chunks) <==> FillsOrEnds(handled, chunks)
  {
    if FillsOrEnds(handled, chunks) {
      FillsOrEndsAgrees(handled, chunks);
    }
    if Agrees(handled, chunks) {
      var r := Run(handled, chunks);
      EveryByteAccounted(handled, chunks);
      ParseKeepsBytes(handled, Flatten(chunks));
      BytesAddUp(r.fates);
      NothingDroppedIff(handled, chunks);
    }
  }

  /** Two such chunkings of one stream cannot be told apart by what is dispatched and retained. */
  lemma {:induction false} ChunkingIrrelevant(handled: set<uint32>, chunks: seq<seq<byte>>, chunks': seq<seq<byte>>)
    requires Flatten(chunks) == Flatten(chunks')
    requires FillsOrEnds(handled, chunks) && FillsOrEnds(handled, chunks')
    ensures PacketsOf(Run(handled, chunks).fates) == PacketsOf(Run(handled, chunks').fates)
    ensures Run(handled, chunks).retained == Run(handled, chunks').retained
  {
    StreamEquivalenceIff(handled, chunks);
    StreamEquivalenceIff(handled, chunks');
  }

  /** Progress: after a completion that fills the buffer, the next receive has room exactly when a
      complete handled packet was in front; then it has room for at least that packet's size. */
  lemma {:induction false} RoomAfterFullBufferIff(handled: set<uint32>, r: Receiver, chunk: seq<byte>)
    requires |r.retained + chunk| == BUF_SIZE && !Complete(handled, r, chunk).spinning
    ensures |Complete(handled, r, chunk).retained| < BUF_SIZE <==> PacketInFront(handled, r.retained + chunk)
    ensures PacketInFront(handled, r.retained + chunk) ==>
              BUF_SIZE - |Complete(handled, r, chunk).retained| >= SizeOf(r.retained + chunk)
  {
    var d := r.retained + chunk;
    if PacketInFront(handled, d) {
      ParseKeepsBytes(handled, d[SizeOf(d)..]);
    }
  }

  // ---- Packet boundaries of a stream of well-formed packets ----

  function Lengths(xs: seq<seq<byte>>): seq<nat> {
    if xs == [] then [] else Lengths(xs[..|xs| - 1]) + [|xs[|xs| - 1]|]
  }

  function Sum(ns: seq<nat>): nat {
    if ns == [] then 0 else Sum(ns[..|ns| - 1]) + ns[|ns| - 1]
  }

  lemma {:induction false} SumOfLengths(xs: seq<seq<byte>>)
    ensures Sum(Lengths(xs)) == |Flatten(xs)| && |Lengths(xs)| == |xs|
  {
    if xs != [] {
      SumOfLengths(xs[..|xs| - 1]);
      FlattenLast(xs);
    }
  }

  /** How many of the first `m` bytes of a stream are whole packets. */
  function LastBoundary(ps: seq<Packet>, m: nat): (b: nat)
    ensures b <= m
  {
    if ps == [] || m < |ps[0]| then 0 else |ps[0]| + LastBoundary(ps[1..], m - |ps[0]|)
  }

  /** It is a packet boundary, and no later one is within the first `m` bytes. */
  lemma {:induction false} LastBoundaryIsLast(ps: seq<Packet>, m: nat, j: nat)
    requires j <= |ps| && |Flatten(ps[..j])| <= m
    ensures |Flatten(ps[..j])| <= LastBoundary(ps, m)
    ensures exists i :: 0 <= i <= |ps| && LastBoundary(ps, m) == |Flatten(ps[..i])|
  {
    assert ps[..0] == [];
    if ps != [] {
      assert j > 0 ==> ps[..j][1..] == ps[1..][..j - 1];
      if m >= |ps[0]| {
        LastBoundaryIsLast(ps[1..], m - |ps[0]|, if j == 0 then 0 else j - 1);
        var i :| 0 <= i <= |ps[1..]| && LastBoundary(ps[1..], m - |ps[0]|) == |Flatten(ps[1..][..i])|;
        assert ps[..i + 1][1..] == ps[1..][..i];
        assert LastBoundary(ps, m) == |Flatten(ps[..i + 1])|;
      } else {
        assert LastBoundary(ps, m) == |Flatten(ps[..0])|;
      }
    }
  }

  /** A proper front part of a packet holds no packet. */
  lemma {:induction false} PartOfPacket(handled: set<uint32>, p: Packet, m: nat)
    requires Sendable(handled, p) && m < |p|
    ensures ParseStream(handled, p[..m]) == Parsed([], p[..m])
  {
    if m >= HEADER_SIZE {
      assert p == p[..m] + p[m..];
      FrontUnaffected(p[..m], p[m..]);
    }
  }

  /** What has arrived of a stream of well-formed packets parses into the whole packets that have
      arrived; the rest starts at the last packet boundary. */
  lemma {:induction false} ParseOfFront(handled: set<uint32>, ps: seq<Packet>, d: seq<byte>)
    requires (forall p <- ps :: Sendable(handled, p)) && d <= Flatten(ps)
    ensures var q := ParseStream(handled, d);
            q.Parsed? && q.packets <= ps && |q.rest| == |d| - LastBoundary(ps, |d|)
  {
    if ps != [] {
      var p := ps[0];
      assert p in ps;
      if |d| < |p| {
        assert d == Flatten(ps)[..|d|] == p[..|d|];
        PartOfPacket(handled, p, |d|);
      } else {
        var e := d[|p|..];
        assert d == p + e && e <= Flatten(ps[1..]);
        assert forall q <- ps[1..] :: q in ps;
        FrontUnaffected(p, e);
        ParseOfFront(handled, ps[1..], e);
        assert d[..|p|] == p && ps == [p] + ps[1..];
      }
    }
  }

  /** Each completion either fills the buffer or ends on a boundary of the sent packets. What the
      buffer held before it is what had arrived since the last boundary. */
  predicate FillsOrMeetsBoundary(ps: seq<Packet>, lengths: seq<nat>) {
    lengths == []
    || (var before, after := Sum(lengths[..|lengths| - 1]), Sum(lengths);
        && FillsOrMeetsBoundary(ps, lengths[..|lengths| - 1])
        && (after - LastBoundary(ps, before) == BUF_SIZE || after == LastBoundary(ps, after)))
  }

  /** In such a run the buffer retains what arrived since the last packet boundary. */
  lemma {:induction false} RetainedSinceBoundary(handled: set<uint32>, ps: seq<Packet>, chunks: seq<seq<byte>>)
    requires (forall p <- ps :: Sendable(handled, p)) && Flatten(chunks) <= Flatten(ps)
    requires FillsOrEnds(handled, chunks)
    ensures |Run(handled, chunks).retained| == |Flatten(chunks)| - LastBoundary(ps, |Flatten(chunks)|)
    ensures PacketsOf(Run(handled, chunks).fates) <= ps
  {
    FillsOrEndsAgrees(handled, chunks);
    ParseOfFront(handled, ps, Flatten(chunks));
  }

  lemma {:induction false} FillsOrEndsWithIff(handled: set<uint32>, ps: seq<Packet>, prefix: seq<seq<byte>>,
                                              chunk: seq<byte>)
    requires (forall p <- ps :: Sendable(handled, p)) && Flatten(prefix) + chunk <= Flatten(ps)
    requires FillsOrEnds(handled, prefix)
    ensures var before, after := |Flatten(prefix)|, |Flatten(prefix) + chunk|;
            FillsOrEndsWith(handled, Run(handled, prefix), chunk)
            <==> after - LastBoundary(ps, before) == BUF_SIZE || after == LastBoundary(ps, after)
  {
    FillsOrEndsAgrees(handled, prefix);
    RetainedSinceBoundary(handled, ps, prefix);
    ParseResumes(handled, Flatten(prefix), chunk);
    ParseOfFront(handled, ps, Flatten(prefix) + chunk);
  }

  /** For a stream of well-formed packets the condition for stream equivalence is one on the
      lengths of the packets and of the chunks alone. */
  lemma {:induction false} FillsOrEndsIffBoundaries(handled: set<uint32>, ps: seq<Packet>, chunks: seq<seq<byte>>)
    requires (forall p <- ps :: Sendable(handled, p)) && Flatten(chunks) <= Flatten(ps)
    ensures FillsOrEnds(handled, chunks) <==> FillsOrMeetsBoundary(ps, Lengths(chunks))
  {
    SumOfLengths(chunks);
    if chunks != [] {
      var prefix, chunk := chunks[..|chunks| - 1], chunks[|chunks| - 1];
      FlattenLast(chunks);
      SumOfLengths(prefix);
      assert Lengths(chunks)[..|chunks| - 1] == Lengths(prefix);
      FillsOrEndsIffBoundaries(handled, ps, prefix);
      if FillsOrEnds(handled, prefix) {
        FillsOrEndsWithIff(handled, ps, prefix, chunk);
      }
    }
  }
}
