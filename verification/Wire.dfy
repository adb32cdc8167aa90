/** Packets on the wire: a packed header, whose Size field covers the whole packet, then a body. */
module Wire {
  import opened Bits

  type byte = b: int | 0 <= b < 0x100
  type Packet = seq<byte>

  const BUF_SIZE := 4096
  /** IOType (4), Size (4), Success (1), IOResultInfo (32), padded to a multiple of 4. */
  const HEADER_SIZE := 44

  const C_CREATE_ACCOUNT: uint32 := 1
  const C_LOGIN: uint32 := 3
  const S_LOGIN: uint32 := 4
  const C_CHAT: uint32 := 5
  const S_CHAT: uint32 := 6
  const C_MOVE: uint32 := 7

  /** The packet types for which the server, and the client, install a handler. */
  const SERVER_HANDLERS: set<uint32> := {C_CHAT, C_CREATE_ACCOUNT, C_LOGIN, C_MOVE}
  const CLIENT_HANDLERS: set<uint32> := {S_CHAT}

  function EncodeUInt32(x: uint32): (b: seq<byte>)
    ensures |b| == 4
  {
    var x1 := x / 0x100;
    var x2 := x1 / 0x100;
    [x % 0x100, x1 % 0x100, x2 % 0x100, x2 / 0x100]
  }

  function DecodeUInt32(b: seq<byte>): uint32
    requires |b| == 4
  {
    b[0] as int + 0x100 * (b[1] as int) + 0x1_0000 * (b[2] as int) + 0x100_0000 * (b[3] as int)
  }

  lemma {:induction false} UInt32RoundTrip(x: uint32)
    ensures DecodeUInt32(EncodeUInt32(x)) == x
  {
  }

  function IOTypeOf(d: seq<byte>): uint32
    requires |d| >= HEADER_SIZE
  {
    DecodeUInt32(d[0..4])
  }

  function SizeOf(d: seq<byte>): uint32
    requires |d| >= HEADER_SIZE
  {
    DecodeUInt32(d[4..8])
  }

  /** A packet whose header describes it: complete, and no longer than a receive buffer. */
  predicate WellFormed(p: Packet) {
    HEADER_SIZE <= |p| <= BUF_SIZE && SizeOf(p) == |p|
  }

  function EncodePacket(ioType: uint32, success: bool, info: seq<byte>, body: seq<byte>): (p: Packet)
    requires |info| == 32 && HEADER_SIZE + |body| < 0x1_0000_0000
    ensures |p| == HEADER_SIZE + |body|
  {
    EncodeUInt32(ioType) + EncodeUInt32(HEADER_SIZE + |body|)
    + [if success then 1 else 0] + info + [0, 0, 0] + body
  }

  /** The header fields and the body are read back as they were written. */
  lemma {:induction false} PacketRoundTrip(ioType: uint32, success: bool, info: seq<byte>, body: seq<byte>)
    requires |info| == 32 && HEADER_SIZE + |body| < 0x1_0000_0000
    ensures var p := EncodePacket(ioType, success, info, body);
            && SizeOf(p) == |p| && IOTypeOf(p) == ioType && p[HEADER_SIZE..] == body
            && p[9..41] == info && (p[8] == 1 <==> success)
  {
    var p := EncodePacket(ioType, success, info, body);
    var n: uint32 := HEADER_SIZE + |body|;
    assert p[0..4] == EncodeUInt32(ioType);
    assert p[4..8] == EncodeUInt32(n);
    UInt32RoundTrip(ioType);
    UInt32RoundTrip(n);
    assert p[HEADER_SIZE..] == body;
    assert p[9..41] == info;
  }

  /** Where the header fields of any bytes are read: least significant byte first, IOType in front. */
  lemma {:induction false} FieldsOf(d: seq<byte>)
    requires |d| >= 44
    ensures IOTypeOf(d) as int == d[0] as int + 0x100 * d[1] as int + 0x1_0000 * d[2] as int + 0x100_0000 * d[3] as int
    ensures SizeOf(d) as int == d[4] as int + 0x100 * d[5] as int + 0x1_0000 * d[6] as int + 0x100_0000 * d[7] as int
  {
  }

  /** The bytes of a packet: IOType, Size, Success, 32 bytes of text, three of padding, the body. */
  lemma {:induction false} PacketLayout(ioType: uint32, success: bool, info: seq<byte>, body: seq<byte>)
    requires |info| == 32 && HEADER_SIZE + |body| < 0x1_0000_0000
    ensures var p := EncodePacket(ioType, success, info, body);
            && |p| == 44 + |body| && p[..8] == EncodeUInt32(ioType) + EncodeUInt32(44 + |body|)
            && p[0] as int + 0x100 * p[1] as int + 0x1_0000 * p[2] as int + 0x100_0000 * p[3] as int == ioType
            && p[4] as int + 0x100 * p[5] as int + 0x1_0000 * p[6] as int + 0x100_0000 * p[7] as int == 44 + |body|
            && p[8] == (if success then 1 else 0) && p[9..41] == info && p[41..44] == [0, 0, 0] && p[44..] == body
  {
    PacketRoundTrip(ioType, success, info, body);
    FieldsOf(EncodePacket(ioType, success, info, body));
  }

  // ---- Chat messages ----

  const MAX_ID_LEN := 24
  const MAX_CHAT_SIZE := 512
  const CHAT_SIZE := HEADER_SIZE + MAX_ID_LEN + MAX_CHAT_SIZE
  /** A user info packet: header, id and password. */
  const USER_INFO_SIZE := HEADER_SIZE + 2 * MAX_ID_LEN
  /** A move packet: header, id and three floats. */
  const MOVE_SIZE := HEADER_SIZE + MAX_ID_LEN + 12

  datatype Chat = Chat(id: seq<byte>, text: seq<byte>)
  {
    predicate Valid() {
      |id| == MAX_ID_LEN && |text| == MAX_CHAT_SIZE
    }
  }

  /** A chat packet as the server sends it. */
  function EncodeChat(c: Chat): Packet
    requires c.Valid()
  {
    EncodePacket(S_CHAT, false, seq(32, _ => 0 as byte), c.id + c.text)
  }

  /** The fields a handler reads from the packet it was given. */
  function DecodeChat(p: Packet): (c: Chat)
    requires |p| == CHAT_SIZE
    ensures c.Valid()
  {
    Chat(p[HEADER_SIZE..HEADER_SIZE + MAX_ID_LEN], p[HEADER_SIZE + MAX_ID_LEN..])
  }

  lemma {:induction false} ChatRoundTrip(c: Chat)
    requires c.Valid()
    ensures var p := EncodeChat(c);
            WellFormed(p) && |p| == CHAT_SIZE && IOTypeOf(p) in CLIENT_HANDLERS && DecodeChat(p) == c
  {
    var p := EncodeChat(c);
    PacketRoundTrip(S_CHAT, false, seq(32, _ => 0 as byte), c.id + c.text);
    var body := p[HEADER_SIZE..];
    assert p[HEADER_SIZE..HEADER_SIZE + MAX_ID_LEN] == body[..MAX_ID_LEN] == c.id;
    assert p[HEADER_SIZE + MAX_ID_LEN..] == body[MAX_ID_LEN..] == c.text;
  }

  /** A chat on the wire begins with type 6 and size 580; the id comes before the text. */
  lemma {:induction false} ChatLayout(c: Chat)
    requires c.Valid()
    ensures var p := EncodeChat(c);
            |p| == 580 && p[..8] == [6, 0, 0, 0, 0x44, 2, 0, 0] && p[44..68] == c.id && p[68..] == c.text
  {
    var p := EncodeChat(c);
    PacketLayout(S_CHAT, false, seq(32, _ => 0 as byte), c.id + c.text);
    assert p[44..68] == p[44..][..24] && p[68..] == p[44..][24..];
  }

  /** Whatever has these first bytes is read so. */
  lemma {:induction false} ChatRead(d: seq<byte>)
    requires |d| == 580 && d[..8] == [6, 0, 0, 0, 0x44, 2, 0, 0]
    ensures WellFormed(d) && IOTypeOf(d) in CLIENT_HANDLERS && DecodeChat(d) == Chat(d[44..68], d[68..])
  {
    assert forall i | 0 <= i < 8 :: d[i] == d[..8][i];
    FieldsOf(d);
  }

  // ---- Concatenation ----

  function Flatten(ps: seq<seq<byte>>): seq<byte> {
    if ps == [] then [] else ps[0] + Flatten(ps[1..])
  }

  lemma {:induction false} FlattenAppend(ps: seq<seq<byte>>, qs: seq<seq<byte>>)
    ensures Flatten(ps + qs) == Flatten(ps) + Flatten(qs)
  {
    if ps == [] {
      assert ps + qs == qs;
    } else {
      FlattenAppend(ps[1..], qs);
      assert (ps + qs)[1..] == ps[1..] + qs;
      assert Flatten(ps + qs) == ps[0] + (Flatten(ps[1..]) + Flatten(qs));
    }
  }

  lemma {:induction false} FlattenOne(p: seq<byte>)
    ensures Flatten([p]) == p
  {
    assert [p][1..] == [];
  }

  lemma {:induction false} FlattenPush(ps: seq<seq<byte>>, p: seq<byte>)
    ensures Flatten(ps + [p]) == Flatten(ps) + p
  {
    FlattenAppend(ps, [p]);
    FlattenOne(p);
  }

  lemma {:induction false} FlattenLast(ps: seq<seq<byte>>)
    requires ps != []
    ensures Flatten(ps) == Flatten(ps[..|ps| - 1]) + ps[|ps| - 1]
  {
    assert ps == ps[..|ps| - 1] + [ps[|ps| - 1]];
    FlattenPush(ps[..|ps| - 1], ps[|ps| - 1]);
  }

  lemma {:induction false} FlattenFront(p: seq<byte>, ps: seq<seq<byte>>, tail: seq<byte>)
    ensures Flatten([p] + ps) + tail == p + (Flatten(ps) + tail)
  {
    assert ([p] + ps)[1..] == ps;
    assert p + Flatten(ps) + tail == p + (Flatten(ps) + tail);
  }

  /** Batches of packets, or of chunks, one after another. */
  function Join(batches: seq<seq<seq<byte>>>): seq<seq<byte>> {
    if batches == [] then [] else Join(batches[..|batches| - 1]) + batches[|batches| - 1]
  }

  lemma {:induction false} BatchesFlatten(sent: seq<seq<byte>>, batches: seq<seq<Packet>>)
    requires |sent| == |batches| && forall k | 0 <= k < |sent| :: sent[k] == Flatten(batches[k])
    ensures Flatten(sent) == Flatten(Join(batches))
  {
    if sent != [] {
      var n := |sent| - 1;
      BatchesFlatten(sent[..n], batches[..n]);
      FlattenLast(sent);
      FlattenAppend(Join(batches[..n]), batches[n]);
    }
  }
}
