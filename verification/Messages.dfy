/**
 Channel messages on the wire, and the staging buffer in which packets wait for
 encryption: `push_packet!` frames of russh/src/lib_inner.rs, drained by
 `Encrypted::flush`.
 */
module Messages {
  import opened Common
  import opened Protocol
  import opened Wire

  const CHANNEL_WINDOW_ADJUST: Byte := 93
  const CHANNEL_DATA: Byte := 94
  const CHANNEL_EXTENDED_DATA: Byte := 95
  const CHANNEL_EOF: Byte := 96
  const CHANNEL_CLOSE: Byte := 97

  /** A channel packet addressed to the peer's channel number. */
  datatype Envelope = Envelope(recipient: nat, packet: Packet)

  /** Every number and every length fits its 32-bit field. */
  predicate Fits(m: Envelope) {
    && m.recipient <= U32_MAX
    && match m.packet
       case Data(stream, bytes) => |bytes| <= U32_MAX && (stream.Extended? ==> stream.code <= U32_MAX)
       case Adjust(amount) => amount <= U32_MAX
       case _ => true
  }

  function Encode(m: Envelope): Bytes
    requires Fits(m)
  {
    match m.packet
    case Data(Main, bytes) => [CHANNEL_DATA] + PutU32(m.recipient) + PutString(bytes)
    case Data(Extended(code), bytes) => [CHANNEL_EXTENDED_DATA] + PutU32(m.recipient) + PutU32(code) + PutString(bytes)
    case Eof => [CHANNEL_EOF] + PutU32(m.recipient)
    case Close => [CHANNEL_CLOSE] + PutU32(m.recipient)
    case Adjust(amount) => [CHANNEL_WINDOW_ADJUST] + PutU32(m.recipient) + PutU32(amount)
  }

  /** The field after the recipient, for each message number; `ensure_end` refuses trailing bytes. */
  function DecodeBody(kind: Byte, b: Bytes): Option<Packet> {
    if kind == CHANNEL_DATA then
      match Last(TakeString(b))
      case Some(data) => Some(Data(Main, data))
      case None => None
    else if kind == CHANNEL_EXTENDED_DATA then
      match TakeU32(b)
      case None => None
      case Some(Parsed(code, rest)) =>
        match Last(TakeString(rest))
        case Some(data) => Some(Data(Extended(code), data))
        case None => None
    else if kind == CHANNEL_WINDOW_ADJUST then
      match Last(TakeU32(b))
      case Some(amount) => Some(Adjust(amount))
      case None => None
    else if b != [] then None
    else if kind == CHANNEL_EOF then Some(Eof)
    else if kind == CHANNEL_CLOSE then Some(Close)
    else None
  }

  /** The receiving arms of `client_read_authenticated`, up to the decoded packet. */
  function Decode(b: Bytes): Option<Envelope> {
    if b == [] then None
    else
      match TakeU32(b[1..])
      case None => None
      case Some(Parsed(recipient, rest)) =>
        match DecodeBody(b[0], rest)
        case None => None
        case Some(packet) => Some(Envelope(recipient, packet))
  }

  lemma HeaderRoundTrip(kind: Byte, recipient: nat, body: Bytes)
    requires recipient <= U32_MAX
    ensures
      var b := [kind] + PutU32(recipient) + body;
      b != [] && b[0] == kind && TakeU32(b[1..]) == Some(Parsed(recipient, body))
  {
    var b := [kind] + PutU32(recipient) + body;
    assert b[1..] == PutU32(recipient) + body;
    U32RoundTrip(recipient, body);
  }

  lemma BodyRoundTrip(code: nat, data: Bytes)
    requires code <= U32_MAX && |data| <= U32_MAX
    ensures DecodeBody(CHANNEL_DATA, PutString(data)) == Some(Data(Main, data))
    ensures DecodeBody(CHANNEL_EXTENDED_DATA, PutU32(code) + PutString(data)) == Some(Data(Extended(code), data))
    ensures DecodeBody(CHANNEL_WINDOW_ADJUST, PutU32(code)) == Some(Adjust(code))
  {
    StringRoundTrip(data, []);
    assert PutString(data) + [] == PutString(data);
    U32RoundTrip(code, PutString(data));
    U32RoundTrip(code, []);
    assert PutU32(code) + [] == PutU32(code);
  }

  /** What one side encodes the other decodes. */
  lemma DecodeEncode(m: Envelope)
    requires Fits(m)
    ensures Decode(Encode(m)) == Some(m)
  {
    match m.packet
    case Data(Main, bytes) =>
      HeaderRoundTrip(CHANNEL_DATA, m.recipient, PutString(bytes));
      BodyRoundTrip(0, bytes);
    case Data(Extended(code), bytes) =>
      HeaderRoundTrip(CHANNEL_EXTENDED_DATA, m.recipient, PutU32(code) + PutString(bytes));
      assert Encode(m) == [CHANNEL_EXTENDED_DATA] + PutU32(m.recipient) + (PutU32(code) + PutString(bytes));
      BodyRoundTrip(code, bytes);
    case Eof =>
      HeaderRoundTrip(CHANNEL_EOF, m.recipient, []);
      assert Encode(m) == [CHANNEL_EOF] + PutU32(m.recipient) + [];
    case Close =>
      HeaderRoundTrip(CHANNEL_CLOSE, m.recipient, []);
      assert Encode(m) == [CHANNEL_CLOSE] + PutU32(m.recipient) + [];
    case Adjust(amount) =>
      HeaderRoundTrip(CHANNEL_WINDOW_ADJUST, m.recipient, PutU32(amount));
      BodyRoundTrip(amount, []);
  }

  /** The bytes of each message, as section 5 of RFC 4254 lays them out. */
  lemma EncodedBytes(m: Envelope)
    requires Fits(m)
    ensures
      var b := Encode(m);
      && |b| >= 5 && BigEndian(b[1..5], m.recipient)
      && match m.packet
         case Adjust(amount) => b[0] == 93 && |b| == 9 && BigEndian(b[5..], amount)
         case Data(Main, bytes) => b[0] == 94 && |b| >= 9 && BigEndian(b[5..9], |bytes|) && b[9..] == bytes
         case Data(Extended(code), bytes) =>
           b[0] == 95 && |b| >= 13 && BigEndian(b[5..9], code) && BigEndian(b[9..13], |bytes|) && b[13..] == bytes
         case Eof => b[0] == 96 && |b| == 5
         case Close => b[0] == 97 && |b| == 5
  {
    var b := Encode(m);
    assert b[1..5] == PutU32(m.recipient);
    U32BigEndian(m.recipient);
    match m.packet
    case Data(Main, bytes) =>
      assert b[5..9] == PutU32(|bytes|);
      U32BigEndian(|bytes|);
    case Data(Extended(code), bytes) =>
      assert b[5..9] == PutU32(code) && b[9..13] == PutU32(|bytes|);
      U32BigEndian(code);
      U32BigEndian(|bytes|);
    case Adjust(amount) =>
      assert b[5..] == PutU32(amount);
      U32BigEndian(amount);
    case _ =>
  }

  /** ... and nothing else decodes: the encoding is canonical. */
  lemma EncodeDecode(b: Bytes)
    requires Decode(b).Some?
    ensures Fits(Decode(b).value)
    ensures Encode(Decode(b).value) == b
  {
    U32Canonical(b[1..]);
    var rest := b[5..];
    assert b[1..][4..] == rest && b[1..][..4] == b[1..5];
    assert b == [b[0]] + b[1..5] + rest;
    assert DecodeBody(b[0], rest).Some?;
    if b[0] == CHANNEL_DATA {
      StringCanonical(rest);
    } else if b[0] == CHANNEL_EXTENDED_DATA {
      U32Canonical(rest);
      StringCanonical(rest[4..]);
      assert rest == rest[..4] + rest[4..];
    } else if b[0] == CHANNEL_WINDOW_ADJUST {
      U32Canonical(rest);
      assert rest == rest[..4];
    }
  }

  // ------------------------------------------------------------ staged frames

  /** `push_packet!`: every frame is preceded by its length. */
  function Staged(frames: seq<Bytes>): Bytes
    requires forall f :: f in frames ==> |f| <= U32_MAX
  {
    if frames == [] then [] else PutString(frames[0]) + Staged(frames[1..])
  }

  lemma {:induction false} StagedPush(frames: seq<Bytes>, f: Bytes)
    requires forall f :: f in frames ==> |f| <= U32_MAX
    requires |f| <= U32_MAX
    ensures Staged(frames + [f]) == Staged(frames) + PutString(f)
  {
    if frames == [] {
      assert frames + [f] == [f];
      assert PutString(f) + [] == PutString(f);
    } else {
      StagedPush(frames[1..], f);
      assert (frames + [f])[1..] == frames[1..] + [f];
      Assoc(PutString(frames[0]), Staged(frames[1..]), PutString(f));
    }
  }

  /** The flush loop finds the frames back: reading a length at a frame boundary yields that frame. */
  lemma StagedHead(frames: seq<Bytes>)
    requires forall f :: f in frames ==> |f| <= U32_MAX
    requires frames != []
    ensures TakeString(Staged(frames)) == Some(Parsed(frames[0], Staged(frames[1..])))
  {
    StringRoundTrip(frames[0], Staged(frames[1..]));
  }
}
