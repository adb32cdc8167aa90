/** The requests a client sends to the server, as bytes and as what the server's handlers are given. */
module Requests {
  import opened Options
  import opened Bits
  import opened Wire
  import opened Framing
  import opened ReceiveBuffer
  import opened ClientLoop

  const POSITION_SIZE := 12

  /** The position of a move is three floats, kept as their bytes. */
  datatype Request =
    | CreateAccount(id: seq<byte>, pw: seq<byte>)
    | LogIn(id: seq<byte>, pw: seq<byte>)
    | SendChat(id: seq<byte>, text: seq<byte>)
    | Move(id: seq<byte>, position: seq<byte>)
  {
    predicate Valid() {
      && |id| == MAX_ID_LEN
      && match this
         case CreateAccount(_, pw) => |pw| == MAX_ID_LEN
         case LogIn(_, pw) => |pw| == MAX_ID_LEN
         case SendChat(_, text) => |text| == MAX_CHAT_SIZE
         case Move(_, position) => |position| == POSITION_SIZE
    }
  }

  function TypeOf(r: Request): uint32 {
    match r
    case CreateAccount(_, _) => C_CREATE_ACCOUNT
    case LogIn(_, _) => C_LOGIN
    case SendChat(_, _) => C_CHAT
    case Move(_, _) => C_MOVE
  }

  /** The fields of a struct behind its header. */
  function Body(r: Request): seq<byte> {
    match r
    case CreateAccount(id, pw) => id + pw
    case LogIn(id, pw) => id + pw
    case SendChat(id, text) => id + text
    case Move(id, position) => id + position
  }

  function Encode(r: Request): Packet
    requires r.Valid()
  {
    EncodePacket(TypeOf(r), false, seq(32, _ => 0 as byte), Body(r))
  }

  function IdOf(p: seq<byte>): seq<byte>
    requires |p| >= HEADER_SIZE + MAX_ID_LEN
  {
    p[HEADER_SIZE..HEADER_SIZE + MAX_ID_LEN]
  }

  /** The last field of a struct. */
  function RestOf(p: seq<byte>): seq<byte>
    requires |p| >= HEADER_SIZE + MAX_ID_LEN
  {
    p[HEADER_SIZE + MAX_ID_LEN..]
  }

  lemma {:induction false} BodyParts(p: seq<byte>, id: seq<byte>, rest: seq<byte>)
    requires |p| >= 44 && p[44..] == id + rest && |id| == 24
    ensures |p| == 68 + |rest| && p[44..68] == id && p[68..] == rest
    ensures IdOf(p) == id && RestOf(p) == rest
  {
    assert p[44..68] == p[44..][..24] && p[68..] == p[44..][24..];
  }

  /** What a handler reads from the struct it was given. */
  function Decode(argument: seq<byte>): Option<Request> {
    if |argument| < HEADER_SIZE + MAX_ID_LEN || |argument| != StructSize(IOTypeOf(argument)) then None
    else
      var ioType, id, rest := IOTypeOf(argument), IdOf(argument), RestOf(argument);
      if ioType == C_CREATE_ACCOUNT then Some(CreateAccount(id, rest))
      else if ioType == C_LOGIN then Some(LogIn(id, rest))
      else if ioType == C_CHAT then Some(SendChat(id, rest))
      else if ioType == C_MOVE then Some(Move(id, rest))
      else None
  }

  lemma {:induction false} LiteralFields()
    ensures EncodeUInt32(1) == [1, 0, 0, 0] && EncodeUInt32(3) == [3, 0, 0, 0]
    ensures EncodeUInt32(5) == [5, 0, 0, 0] && EncodeUInt32(7) == [7, 0, 0, 0]
    ensures EncodeUInt32(80) == [80, 0, 0, 0] && EncodeUInt32(92) == [92, 0, 0, 0]
    ensures EncodeUInt32(580) == [0x44, 2, 0, 0]
  {
  }

  lemma {:induction false} StructLayout(ioType: uint32, id: seq<byte>, rest: seq<byte>)
    requires |id| == 24 && |rest| <= 512
    ensures var p := EncodePacket(ioType, false, seq(32, _ => 0 as byte), id + rest);
            && |p| == 68 + |rest| && p[..8] == EncodeUInt32(ioType) + EncodeUInt32(68 + |rest|)
            && p[44..68] == id && p[68..] == rest && IdOf(p) == id && RestOf(p) == rest
  {
    PacketLayout(ioType, false, seq(32, _ => 0 as byte), id + rest);
    BodyParts(EncodePacket(ioType, false, seq(32, _ => 0 as byte), id + rest), id, rest);
  }

  /** A request on the wire: type and size at the front, least significant byte first, the id
      from byte 44 and what comes with it from byte 68. */
  lemma {:induction false} RequestLayout(r: Request)
    requires r.Valid()
    ensures var p := Encode(r);
            && |p| >= 68 && p[44..68] == r.id
            && match r
               case CreateAccount(_, pw) => p[..8] == [1, 0, 0, 0, 92, 0, 0, 0] && |p| == 92 && p[68..] == pw
               case LogIn(_, pw) => p[..8] == [3, 0, 0, 0, 92, 0, 0, 0] && |p| == 92 && p[68..] == pw
               case SendChat(_, text) => p[..8] == [5, 0, 0, 0, 0x44, 2, 0, 0] && |p| == 580 && p[68..] == text
               case Move(_, position) => p[..8] == [7, 0, 0, 0, 80, 0, 0, 0] && |p| == 80 && p[68..] == position
  {
    LiteralFields();
    match r
    case CreateAccount(id, pw) => StructLayout(1, id, pw);
    case LogIn(id, pw) => StructLayout(3, id, pw);
    case SendChat(id, text) => StructLayout(5, id, text);
    case Move(id, position) => StructLayout(7, id, position);
  }

  /** Any 92 bytes that begin so are a whole packet to the server; its handler gets all of them, and
      reads the id from bytes 44 to 68 and the password from bytes 68 to 92. */
  lemma {:induction false} LoginRead(d: seq<byte>)
    requires |d| == 92 && d[..8] == [3, 0, 0, 0, 92, 0, 0, 0]
    ensures ParseStream(SERVER_HANDLERS, d) == Parsed([d], [])
    ensures HandlerCopy(d, d) == d && Decode(d) == Some(LogIn(d[44..68], d[68..92]))
  {
    assert forall i | 0 <= i < 8 :: d[i] == d[..8][i];
    FieldsOf(d);
    assert d[68..|d|] == d[68..];
    WholePacket(SERVER_HANDLERS, d);
  }

  lemma {:induction false} CreateAccountRead(d: seq<byte>)
    requires |d| == 92 && d[..8] == [1, 0, 0, 0, 92, 0, 0, 0]
    ensures ParseStream(SERVER_HANDLERS, d) == Parsed([d], [])
    ensures HandlerCopy(d, d) == d && Decode(d) == Some(CreateAccount(d[44..68], d[68..92]))
  {
    assert forall i | 0 <= i < 8 :: d[i] == d[..8][i];
    FieldsOf(d);
    assert d[68..|d|] == d[68..];
    WholePacket(SERVER_HANDLERS, d);
  }

  lemma {:induction false} MoveRead(d: seq<byte>)
    requires |d| == 80 && d[..8] == [7, 0, 0, 0, 80, 0, 0, 0]
    ensures ParseStream(SERVER_HANDLERS, d) == Parsed([d], [])
    ensures HandlerCopy(d, d) == d && Decode(d) == Some(Move(d[44..68], d[68..80]))
  {
    assert forall i | 0 <= i < 8 :: d[i] == d[..8][i];
    FieldsOf(d);
    assert d[68..|d|] == d[68..];
    WholePacket(SERVER_HANDLERS, d);
  }

  /** The server handles packets of types 1, 3, 5 and 7, and no other. */
  lemma {:induction false} ServerHandlesIff(p: Packet)
    requires |p| >= HEADER_SIZE
    ensures IOTypeOf(p) in SERVER_HANDLERS <==> p[0] in {1, 3, 5, 7} && p[1..4] == [0, 0, 0]
  {
    FieldsOf(p);
    assert p[1..4] == [p[1], p[2], p[3]];
  }

  /** An encoded request is a packet the server handles, exactly as long as the struct its handler
      copies, and the handler reads the request from it. */
  lemma {:induction false} RequestRoundTrip(r: Request)
    requires r.Valid()
    ensures var p := Encode(r);
            Sendable(SERVER_HANDLERS, p) && StructSize(IOTypeOf(p)) == |p| && Decode(p) == Some(r)
  {
    PacketRoundTrip(TypeOf(r), false, seq(32, _ => 0 as byte), Body(r));
    BodyParts(Encode(r), r.id, Body(r)[24..]);
  }

  function EncodeAll(rs: seq<Request>): (ps: seq<Packet>)
    requires forall r <- rs :: r.Valid()
    ensures |ps| == |rs|
  {
    seq(|rs|, k requires 0 <= k < |rs| => Encode(rs[k]))
  }

  function DecodeAll(arguments: seq<seq<byte>>): (rs: seq<Option<Request>>)
    ensures |rs| == |arguments|
  {
    seq(|arguments|, k requires 0 <= k < |arguments| => Decode(arguments[k]))
  }

  function Somes(rs: seq<Request>): (os: seq<Option<Request>>)
    ensures |os| == |rs|
  {
    seq(|rs|, k requires 0 <= k < |rs| => Some(rs[k]))
  }

  lemma {:induction false} AllSendable(rs: seq<Request>)
    requires forall r <- rs :: r.Valid()
    ensures forall p <- EncodeAll(rs) :: Sendable(SERVER_HANDLERS, p)
  {
    forall k | 0 <= k < |rs| ensures Sendable(SERVER_HANDLERS, EncodeAll(rs)[k]) {
      assert rs[k] in rs;
      RequestRoundTrip(rs[k]);
    }
  }

  /** Handlers that are given the packets of requests read these requests. */
  lemma {:induction false} ArgumentsDecode(rs: seq<Request>, arguments: seq<seq<byte>>)
    requires (forall r <- rs :: r.Valid()) && ArgumentsMatch(EncodeAll(rs), arguments)
    ensures DecodeAll(arguments) == Somes(rs)
  {
    forall k | 0 <= k < |rs| ensures Decode(arguments[k]) == Some(rs[k]) {
      assert rs[k] in rs;
      RequestRoundTrip(rs[k]);
      var p := EncodeAll(rs)[k];
      assert SeesPacket(p, arguments[k]);
      assert p[..|p|] == p;
    }
  }

  /** The concatenated requests reach the server's buffer whole and in order if and only if each
      completion fills the buffer or ends on a packet boundary. */
  lemma {:induction false} RequestsDispatchedIff(rs: seq<Request>, deliveries: seq<seq<byte>>)
    requires (forall r <- rs :: r.Valid()) && Flatten(deliveries) == Flatten(EncodeAll(rs))
    ensures var r := Run(SERVER_HANDLERS, deliveries);
            !r.spinning && PacketsOf(r.fates) == EncodeAll(rs) && r.retained == []
            <==> FillsOrMeetsBoundary(EncodeAll(rs), Lengths(deliveries))
  {
    var ps := EncodeAll(rs);
    AllSendable(rs);
    ParseConcatenation(SERVER_HANDLERS, ps, []);
    assert Flatten(ps) + [] == Flatten(deliveries) && ps + [] == ps;
    StreamEquivalenceIff(SERVER_HANDLERS, deliveries);
    FillsOrEndsIffBoundaries(SERVER_HANDLERS, ps, deliveries);
  }

  /** The server's handlers are given the very requests that a client sent, in order. */
  method ReceiveRequests(buffer: ReceiveBuffer, ghost requests: seq<Request>, deliveries: seq<seq<byte>>)
    returns (received: seq<Option<Request>>)
    requires buffer.Valid() && buffer.Now() == FRESH_RECEIVER && buffer.handled == SERVER_HANDLERS
    requires (forall r <- requests :: r.Valid()) && Flatten(deliveries) == Flatten(EncodeAll(requests))
    requires Fits(SERVER_HANDLERS, deliveries)
    requires FillsOrMeetsBoundary(EncodeAll(requests), Lengths(deliveries))
    modifies buffer, buffer.data
    ensures buffer.Valid() && received == Somes(requests)
  {
    RequestsDispatchedIff(requests, deliveries);
    for k := 0 to |deliveries|
      invariant buffer.Valid() && buffer.Now() == Run(SERVER_HANDLERS, deliveries[..k])
    {
      RunContinues(SERVER_HANDLERS, deliveries, k);
      buffer.OnRecv(deliveries[k]);
    }
    assert deliveries[..|deliveries|] == deliveries;
    ArgumentsDecode(requests, buffer.arguments);
    received := DecodeAll(buffer.arguments);
  }
}
