/**
 Packet framing (section 6 of RFC 4253; russh/src/cipher/mod.rs): packets are
 laid out, sealed and read back under any key whose opening half undoes its
 sealing half, across whole packet sequences with evolving cipher state and
 sequence numbers.
 */
module Framing {
  import opened Common
  import opened Wire
  import opened Padding

  datatype Sealed<S> = Sealed(text: Bytes, tag: Bytes, state: S)

  datatype Opened<S> = Opened(plain: Bytes, state: S)

  /** The two halves of a key with state `S`: `seal`, `decrypt_packet_length` and `open`. */
  datatype Key<!S> = Key(
    mode: Mode,
    seal: (S, nat, Bytes) -> Sealed<S>,
    length: (S, nat, Bytes) -> Bytes,
    open: (S, nat, Bytes, Bytes) -> Option<Opened<S>>)

  /** A packet before sealing: its length field is right and its padded region is whole blocks. */
  predicate Formed(m: Mode, plain: Bytes) {
    && |plain| >= 9
    && GetU32(plain) == |plain| - 4
    && (|plain| - Skipped(m)) % BlockSize(m) == 0
    && |plain| + TagLen(m) >= Probe(m)
  }

  /** The opening half finds the length with its probe and the packet and state with `open`. */
  ghost predicate LawAt<S>(k: Key<S>, s: S, seqn: nat, plain: Bytes)
    requires |plain| >= 4
  {
    var c := k.seal(s, seqn, plain);
    && |c.text| == |plain|
    && |c.tag| == TagLen(k.mode)
    && |c.text + c.tag| >= Probe(k.mode)
    && k.length(s, seqn, (c.text + c.tag)[..Probe(k.mode)]) == plain[..4]
    && k.open(s, seqn, c.text, c.tag) == Some(Opened(plain[4..], c.state))
  }

  ghost predicate Lawful<S(!new)>(k: Key<S>) {
    forall s: S, seqn: nat, plain: Bytes :: Formed(k.mode, plain) ==> LawAt(k, s, seqn, plain)
  }

  // ------------------------------------------------------------------ layout

  /** Padding of the right length, and a packet whose length field can hold it. */
  predicate Padded(m: Mode, payload: Bytes, pad: Bytes) {
    && |pad| == PaddingLength(m, |payload|)
    && PacketLength(m, |payload|) <= U32_MAX
  }

  /** Length, padding length, payload, padding. */
  function Packet(m: Mode, payload: Bytes, pad: Bytes): (r: Bytes)
    requires Padded(m, payload, pad)
    ensures |r| == 4 + PacketLength(m, |payload|)
  {
    PaddingRules(m, |payload|);
    PutU32(PacketLength(m, |payload|)) + [|pad|] + payload + pad
  }

  lemma PacketFormed(m: Mode, payload: Bytes, pad: Bytes)
    requires Padded(m, payload, pad)
    ensures Formed(m, Packet(m, payload, pad))
  {
    PaddingRules(m, |payload|);
    var p := Packet(m, payload, pad);
    U32RoundTrip(PacketLength(m, |payload|), [|pad|] + payload + pad);
    assert p == PutU32(PacketLength(m, |payload|)) + ([|pad|] + payload + pad);
  }

  /** The bytes of a packet before sealing, as section 6 of RFC 4253 lays them out. */
  lemma PacketBytes(m: Mode, payload: Bytes, pad: Bytes)
    requires Padded(m, payload, pad)
    ensures
      var p := Packet(m, payload, pad);
      && |p| == 5 + |payload| + |pad| && BigEndian(p[..4], 1 + |payload| + |pad|)
      && p[4] == |pad| && p[5..5 + |payload|] == payload && p[5 + |payload|..] == pad
  {
    PaddingRules(m, |payload|);
    U32BigEndian(PacketLength(m, |payload|));
    assert Packet(m, payload, pad)[..4] == PutU32(PacketLength(m, |payload|));
  }

  // ------------------------------------------------------------------ writing

  /** One end of a connection direction: cipher state and sequence number. */
  datatype End<S> = End(state: S, seqn: nat)

  /** Sequence numbers wrap at 32 bits. */
  function Bump(seqn: nat): nat {
    (seqn + 1) % (U32_MAX + 1)
  }

  datatype Written<S> = Written(wire: Bytes, end: End<S>)

  /** Sealing one payload. */
  function SealPacket<S>(k: Key<S>, e: End<S>, payload: Bytes, pad: Bytes): Written<S>
    requires Padded(k.mode, payload, pad)
  {
    var c := k.seal(e.state, e.seqn, Packet(k.mode, payload, pad));
    Written(c.text + c.tag, End(c.state, Bump(e.seqn)))
  }

  // ------------------------------------------------------------------ reading

  /** `Panic`: the source slices its buffer beyond the end. */
  datatype ReadError = Short | PacketSize(len: nat) | Panic | Auth | IndexOutOfBounds

  datatype Received<S> = Received(payload: Bytes, end: End<S>, rest: Bytes)

  /** The payload between the padding length and the padding. */
  function Stripped(plain: Bytes): Result<Bytes, ReadError> {
    var padding: int := if plain == [] then 0 else plain[0];
    if padding > |plain| then Err(IndexOutOfBounds)
    else Ok(if |plain| - padding == 0 then [] else plain[1..|plain| - padding])
  }

  /** A MAC of at least twelve bytes, so that even the shortest packet covers the length probe. */
  predicate Supported(m: Mode) {
    m.Block? ==> m.macLen >= 12
  }

  /** `read`: probe for the length, take that many bytes, open, strip the padding. */
  function OpenPacket<S>(k: Key<S>, e: End<S>, input: Bytes): (r: Result<Received<S>, ReadError>)
    ensures Supported(k.mode) ==> r != Err(Panic)
  {
    if |input| < Probe(k.mode) then Err(Short)
    else
      var len := k.length(e.state, e.seqn, input[..Probe(k.mode)]);
      if |len| < 4 then Err(Short)
      else if GetU32(len) > MAXIMUM_PACKET_LEN then Err(PacketSize(GetU32(len)))
      else
        var total := 4 + GetU32(len) + TagLen(k.mode);
        if total < Probe(k.mode) then Err(Panic)
        else if |input| < total then Err(Short)
        else
          match k.open(e.state, e.seqn, input[..total - TagLen(k.mode)], input[total - TagLen(k.mode)..total])
          case None => Err(Auth)
          case Some(o) =>
            match Stripped(o.plain)
            case Err(x) => Err(x)
            case Ok(payload) => Ok(Received(payload, End(o.state, Bump(e.seqn)), input[total..]))
  }

  /** Padding longer than the packet is refused; otherwise what precedes the padding is the payload. */
  lemma StrippedIff(plain: Bytes)
    requires plain != []
    ensures Stripped(plain) == Err(IndexOutOfBounds) <==> plain[0] > |plain|
    ensures plain[0] < |plain| ==>
      Stripped(plain).Ok? && |Stripped(plain).value| == |plain| - 1 - plain[0] && [plain[0]] + Stripped(plain).value <= plain
    ensures plain[0] == |plain| ==> Stripped(plain) == Ok([])
  {
  }

  /** A declared length is refused exactly above 256 KiB and the overhead of the largest channel packet. */
  lemma LimitExact<S>(k: Key<S>, e: End<S>, input: Bytes)
    requires |input| >= Probe(k.mode) && |k.length(e.state, e.seqn, input[..Probe(k.mode)])| >= 4
    ensures
      var declared := GetU32(k.length(e.state, e.seqn, input[..Probe(k.mode)]));
      OpenPacket(k, e, input) == Err(PacketSize(declared)) <==> declared > 262144 + 33
  {
  }

  lemma StrippedPacket(m: Mode, payload: Bytes, pad: Bytes)
    requires Padded(m, payload, pad)
    ensures Stripped(Packet(m, payload, pad)[4..]) == Ok(payload)
  {
    PaddingRules(m, |payload|);
    var plain := Packet(m, payload, pad)[4..];
    assert plain == [|pad|] + payload + pad;
    assert |plain| - |pad| == 1 + |payload|;
    assert plain[1..1 + |payload|] == payload;
  }

  /** Reading what was just written gives the payload, and leaves both ends in the same state. */
  lemma OpenSealed<S(!new)>(k: Key<S>, e: End<S>, payload: Bytes, pad: Bytes, rest: Bytes)
    requires Lawful(k) && Padded(k.mode, payload, pad) && PacketLength(k.mode, |payload|) <= MAXIMUM_PACKET_LEN
    ensures
      var w := SealPacket(k, e, payload, pad);
      OpenPacket(k, e, w.wire + rest) == Ok(Received(payload, w.end, rest))
  {
    var plain := Packet(k.mode, payload, pad);
    PacketFormed(k.mode, payload, pad);
    assert LawAt(k, e.state, e.seqn, plain);
    var c := k.seal(e.state, e.seqn, plain);
    var wire := c.text + c.tag;
    var input := wire + rest;
    assert input[..Probe(k.mode)] == wire[..Probe(k.mode)];
    U32RoundTrip(PacketLength(k.mode, |payload|), plain[4..]);
    assert plain == PutU32(PacketLength(k.mode, |payload|)) + plain[4..];
    assert GetU32(plain[..4]) == PacketLength(k.mode, |payload|);
    assert input[..|plain|] == c.text && input[|plain|..|wire|] == c.tag && input[|wire|..] == rest;
    StrippedPacket(k.mode, payload, pad);
  }

  // ---------------------------------------------------------------- sequences

  /** One payload and the padding drawn for it. */
  datatype Item = Item(payload: Bytes, pad: Bytes)

  predicate Sendable(m: Mode, item: Item) {
    Padded(m, item.payload, item.pad) && PacketLength(m, |item.payload|) <= MAXIMUM_PACKET_LEN
  }

  /** Sealing a list of payloads one after the other. */
  function SealAll<S>(k: Key<S>, e: End<S>, items: seq<Item>): Written<S>
    requires forall i :: 0 <= i < |items| ==> Sendable(k.mode, items[i])
    decreases |items|
  {
    if items == [] then Written([], e)
    else
      assert Sendable(k.mode, items[0]);
      var w := SealPacket(k, e, items[0].payload, items[0].pad);
      var more := SealAll(k, w.end, items[1..]);
      Written(w.wire + more.wire, more.end)
  }

  datatype AllReceived<S> = AllReceived(payloads: seq<Bytes>, end: End<S>, rest: Bytes)

  /** Reading `count` packets in a row. */
  function OpenAll<S>(k: Key<S>, e: End<S>, input: Bytes, count: nat): Result<AllReceived<S>, ReadError>
    decreases count
  {
    if count == 0 then Ok(AllReceived([], e, input))
    else
      match OpenPacket(k, e, input)
      case Err(x) => Err(x)
      case Ok(got) =>
        match OpenAll(k, got.end, got.rest, count - 1)
        case Err(x) => Err(x)
        case Ok(more) => Ok(AllReceived([got.payload] + more.payloads, more.end, more.rest))
  }

  function PayloadsOf(items: seq<Item>): seq<Bytes> {
    if items == [] then [] else [items[0].payload] + PayloadsOf(items[1..])
  }

  /** Whatever list of payloads is sealed, reading as often gives the same list, the same cipher state
      and the same sequence number, and consumes exactly the bytes written. */
  lemma {:induction false} SequenceRoundTrip<S(!new)>(k: Key<S>, e: End<S>, items: seq<Item>, rest: Bytes)
    requires Lawful(k) && forall i :: 0 <= i < |items| ==> Sendable(k.mode, items[i])
    ensures
      var w := SealAll(k, e, items);
      OpenAll(k, e, w.wire + rest, |items|) == Ok(AllReceived(PayloadsOf(items), w.end, rest))
    decreases |items|
  {
    if items == [] {
      assert [] + rest == rest;
    } else {
      assert Sendable(k.mode, items[0]);
      var w := SealPacket(k, e, items[0].payload, items[0].pad);
      var more := SealAll(k, w.end, items[1..]);
      OpenSealed(k, e, items[0].payload, items[0].pad, more.wire + rest);
      assert w.wire + more.wire + rest == w.wire + (more.wire + rest);
      SequenceRoundTrip(k, w.end, items[1..], rest);
    }
  }

  lemma BumpThenAdd(seqn: nat, n: nat)
    ensures (Bump(seqn) + n) % (U32_MAX + 1) == (seqn + 1 + n) % (U32_MAX + 1)
  {
  }

  /** The sequence number counts packets modulo 2^32. */
  lemma {:induction false} SequenceNumber<S>(k: Key<S>, e: End<S>, items: seq<Item>)
    requires e.seqn <= U32_MAX && forall i :: 0 <= i < |items| ==> Sendable(k.mode, items[i])
    ensures SealAll(k, e, items).end.seqn == (e.seqn + |items|) % (U32_MAX + 1)
    decreases |items|
  {
    if items != [] {
      assert Sendable(k.mode, items[0]);
      BumpThenAdd(e.seqn, |items| - 1);
      SequenceNumber(k, SealPacket(k, e, items[0].payload, items[0].pad).end, items[1..]);
    }
  }

  // ------------------------------------------------------------ the two writers

  /** Writing a five-byte header over a reserved one, then appending the padding. */
  lemma Patched(buffer: Bytes, offset: nat, length: Bytes, padding: Byte, pad: Bytes)
    requires offset + 5 <= |buffer| && |length| == 4
    ensures
      var b := (buffer[..offset] + length + buffer[offset + 4..])[offset + 4 := padding] + pad;
      b[..offset] == buffer[..offset] && b[offset..] == length + [padding] + buffer[offset + 5..] + pad
  {
    var front, rest := buffer[..offset], buffer[offset + 4..];
    var patched := (front + length + rest)[offset + 4 := padding];
    assert patched == front + length + ([padding] + rest[1..]);
    assert rest[1..] == buffer[offset + 5..];
  }

  /** `SSHBuffer` with the sealing key that fills it. */
  class Writer<S> {
    const key: Key<S>
    var buffer: Bytes
    var bytes: nat
    var end: End<S>

    constructor (key: Key<S>, end: End<S>)
      ensures this.key == key && this.end == end && buffer == [] && bytes == 0
    {
      this.key, this.end, buffer, bytes := key, end, [], 0;
    }

    /** `seal` over the packet that starts at `offset`, then the counters. */
    method SealAt(offset: nat, payloadLen: nat)
      requires offset + 4 <= |buffer|
      modifies this
      ensures
        var c := key.seal(old(end.state), old(end.seqn), old(buffer[offset..]));
        && buffer == old(buffer[..offset]) + (c.text + c.tag)
        && end == End(c.state, Bump(old(end.seqn)))
        && bytes == old(bytes) + payloadLen
    {
      var c := key.seal(end.state, end.seqn, buffer[offset..]);
      buffer := buffer[..offset] + (c.text + c.tag);
      bytes := bytes + payloadLen;
      end := End(c.state, Bump(end.seqn));
    }

    /** `write`: lay the packet out at the end of the buffer and seal it. */
    method Write(payload: Bytes, pad: Bytes)
      requires Padded(key.mode, payload, pad)
      modifies this
      ensures buffer == old(buffer) + SealPacket(key, old(end), payload, pad).wire
      ensures end == SealPacket(key, old(end), payload, pad).end && bytes == old(bytes) + |payload|
    {
      PaddingRules(key.mode, |payload|);
      var paddingLength := PaddingLength(key.mode, |payload|);
      var packetLength := PADDING_LENGTH_LEN + |payload| + paddingLength;
      var offset := |buffer|;
      buffer := buffer + PutU32(packetLength);
      buffer := buffer + [paddingLength];
      buffer := buffer + payload;
      buffer := buffer + pad;
      assert buffer[..offset] == old(buffer);
      assert buffer[offset..] == Packet(key.mode, payload, pad);
      SealAt(offset, |payload|);
    }

    /** `finish_packet`: the payload already stands behind five reserved bytes; patch the header in, pad, seal. */
    method FinishPacket(offset: nat, payloadLen: nat, pad: Bytes)
      requires offset + 5 + payloadLen == |buffer|
      requires Padded(key.mode, buffer[offset + 5..], pad)
      modifies this
      ensures
        var w := SealPacket(key, old(end), old(buffer[offset + 5..]), pad);
        buffer == old(buffer[..offset]) + w.wire && end == w.end && bytes == old(bytes) + payloadLen
    {
      ghost var payload := buffer[offset + 5..];
      PaddingRules(key.mode, payloadLen);
      var paddingLength := PaddingLength(key.mode, payloadLen);
      var packetLength := PADDING_LENGTH_LEN + payloadLen + paddingLength;
      buffer := buffer[..offset] + PutU32(packetLength) + buffer[offset + 4..];
      buffer := buffer[offset + 4 := paddingLength];
      buffer := buffer + pad;
      Patched(old(buffer), offset, PutU32(packetLength), paddingLength, pad);
      SealAt(offset, payloadLen);
    }

    /** `packet_raw` without compression: empty payloads are dropped. */
    method PacketRaw(payload: Bytes, pad: Bytes)
      requires Padded(key.mode, payload, pad)
      modifies this
      ensures
        var w := SealPacket(key, old(end), payload, pad);
        if payload == [] then unchanged(this)
        else buffer == old(buffer) + w.wire && end == w.end && bytes == old(bytes) + |payload|
    {
      if payload != [] {
        Write(payload, pad);
      }
    }

    /** `write_packet` without compression: reserve the header, let the caller append the payload, finish in place. */
    method WritePacket(payload: Bytes, pad: Bytes)
      requires Padded(key.mode, payload, pad)
      modifies this
      ensures
        var w := SealPacket(key, old(end), payload, pad);
        if payload == [] then buffer == old(buffer) && end == old(end) && bytes == old(bytes)
        else buffer == old(buffer) + w.wire && end == w.end && bytes == old(bytes) + |payload|
    {
      var offset := |buffer|;
      var payloadStart := offset + 5;
      buffer := buffer + [0, 0, 0, 0, 0];
      buffer := buffer + payload;
      var payloadLen := |buffer| - payloadStart;
      assert buffer[payloadStart..] == payload && buffer[..offset] == old(buffer);
      if payloadLen == 0 {
        buffer := buffer[..offset];
        return;
      }
      FinishPacket(offset, payloadLen, pad);
    }
  }

  /** The two ways to put a packet on the wire both append the sealed packet, and leave the same cipher
      state and counters behind. */
  method InPlaceRefinesCopy<S(==)>(inPlace: Writer<S>, copy: Writer<S>, payload: Bytes, pad: Bytes)
    requires inPlace != copy && inPlace.key == copy.key && inPlace.end == copy.end
    requires inPlace.buffer == copy.buffer && inPlace.bytes == copy.bytes
    requires Padded(copy.key.mode, payload, pad)
    modifies inPlace, copy
    ensures inPlace.buffer == copy.buffer && inPlace.end == copy.end && inPlace.bytes == copy.bytes
    ensures
      var w := SealPacket(copy.key, old(copy.end), payload, pad);
      if payload == [] then unchanged(copy)
      else copy.buffer == old(copy.buffer) + w.wire && copy.end == w.end && copy.bytes == old(copy.bytes) + |payload|
  {
    inPlace.WritePacket(payload, pad);
    copy.PacketRaw(payload, pad);
  }

  // --------------------------------------------------------------- the reader

  /** The probe and the rest of the packet, taken one after the other. */
  lemma TakenTogether(all: Bytes, probe: nat, total: nat, cut: nat)
    requires probe <= total <= |all| && cut <= total
    ensures
      var taken := all[..probe] + all[probe..][..total - probe];
      taken[..cut] == all[..cut] && taken[cut..] == all[cut..total] && all[probe..][total - probe..] == all[total..]
  {
    assert all[..probe] + all[probe..][..total - probe] == all[..total];
  }

  /** `read` and the buffer it fills; `input` stands for the bytes the stream will deliver. */
  class Reader<S> {
    const key: Key<S>
    var input: Bytes
    var buffer: Bytes
    var end: End<S>

    constructor (key: Key<S>, end: End<S>, input: Bytes)
      ensures this.key == key && this.end == end && this.input == input
    {
      this.key, this.end, this.input, buffer := key, end, input, [];
    }

    /** `read_exact`. */
    method Take(n: nat) returns (b: Bytes)
      requires n <= |input|
      modifies this`input
      ensures b == old(input[..n]) && input == old(input[n..])
    {
      b := input[..n];
      input := input[n..];
    }

    /** The end of `read`: open what was buffered, strip the padding, and only then move on. */
    method Unseal(cut: nat) returns (r: Result<Bytes, ReadError>)
      requires cut <= |buffer|
      modifies this`end
      ensures
        match key.open(old(end).state, old(end).seqn, buffer[..cut], buffer[cut..])
        case None => r == Err(Auth) && end == old(end)
        case Some(o) =>
          r == Stripped(o.plain) && end == if r.Ok? then End(o.state, Bump(old(end).seqn)) else old(end)
    {
      var result := key.open(end.state, end.seqn, buffer[..cut], buffer[cut..]);
      if result.None? {
        return Err(Auth);
      }
      r := Stripped(result.value.plain);
      if r.Ok? {
        end := End(result.value.state, Bump(end.seqn));
      }
    }

    /** `read`: one packet. */
    method Read() returns (r: Result<Bytes, ReadError>)
      modifies this
      ensures
        match OpenPacket(key, old(end), old(input))
        case Err(x) => r.Err? && r.error == x && end == old(end)
        case Ok(got) => r.Ok? && r.value == got.payload && end == got.end && input == got.rest
      ensures Supported(key.mode) ==> r != Err(Panic)
    {
      ghost var all := input;
      var probe := Probe(key.mode);
      if |input| < probe {
        return Err(Short);
      }
      buffer := Take(probe);
      var len := key.length(end.state, end.seqn, buffer);
      if |len| < 4 {
        return Err(Short);
      }
      if GetU32(len) > MAXIMUM_PACKET_LEN {
        return Err(PacketSize(GetU32(len)));
      }
      var total := GetU32(len) + TagLen(key.mode) + 4;
      if total < probe {
        return Err(Panic);
      }
      if |input| < total - probe {
        return Err(Short);
      }
      var rest := Take(total - probe);
      buffer := buffer + rest;
      TakenTogether(all, probe, total, total - TagLen(key.mode));
      r := Unseal(total - TagLen(key.mode));
    }
  }
}
