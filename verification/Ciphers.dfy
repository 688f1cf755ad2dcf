/**
 The sealing and opening keys of russh/src/cipher, each shown to satisfy the law
 that `Framing` needs: clear, counter mode and cipher block chaining with either
 MAC order, and AES-GCM over an abstract AEAD. MAC, block cipher, keystream and
 AEAD are parameters.
 */
module Ciphers {
  import opened Common
  import opened Wire
  import opened Padding
  import opened Framing
  import opened BlockModes
  import Nonces

  /** A MAC under some key: sequence number and data to a tag. */
  type Mac = (nat, Bytes) -> Bytes

  ghost predicate MacSized(mac: Mac, len: nat) {
    forall n: nat, b: Bytes :: |mac(n, b)| == len
  }

  // -------------------------------------------------------------------- clear

  function ClearKey(): Key<int> {
    Key(
      Clear,
      (s: int, n: nat, p: Bytes) => Sealed(p, [], s),
      (s: int, n: nat, b: Bytes) => b,
      (s: int, n: nat, text: Bytes, tag: Bytes) => if |text| < 4 then None else Some(Opened(text[4..], s)))
  }

  lemma ClearLawful()
    ensures Lawful(ClearKey())
  {
    forall s: int, n: nat, plain: Bytes | Formed(Clear, plain)
      ensures LawAt(ClearKey(), s, n, plain)
    {
      assert plain + [] == plain;
    }
  }

  // --------------------------------------------------- block ciphers with a MAC

  /** How a block cipher in some mode of operation transforms data and moves its state. */
  datatype Transform<!S> = Transform(enc: (S, Bytes) -> Opened<S>, dec: (S, Bytes) -> Opened<S>)

  /** On whole blocks of 16 bytes decryption undoes encryption, and the first 16 bytes can be
      decrypted on their own far enough to read the length. */
  ghost predicate Reversible<S(!new)>(t: Transform<S>) {
    forall s: S, data: Bytes :: |data| % 16 == 0 && |data| >= 16 ==> ReversibleAt(t, s, data)
  }

  ghost predicate ReversibleAt<S>(t: Transform<S>, s: S, data: Bytes)
    requires |data| >= 16
  {
    var c := t.enc(s, data);
    && |c.plain| == |data|
    && t.dec(s, c.plain) == Opened(data, c.state)
    && |t.dec(s, c.plain[..16]).plain| >= 4
    && t.dec(s, c.plain[..16]).plain[..4] == data[..4]
  }

  /** `SealingKey::seal` for a block cipher. */
  function BlockSeal<S>(t: Transform<S>, mac: Mac, etm: bool, s: S, n: nat, p: Bytes): Sealed<S> {
    if |p| < 4 then Sealed(p, [], s)
    else if etm then
      var c := t.enc(s, p[4..]);
      Sealed(p[..4] + c.plain, mac(n, p[..4] + c.plain), c.state)
    else
      var c := t.enc(s, p);
      Sealed(c.plain, mac(n, p), c.state)
  }

  /** `OpeningKey::decrypt_packet_length` for a block cipher. */
  function BlockLength<S>(t: Transform<S>, etm: bool, s: S, b: Bytes): Bytes {
    if |b| < 16 then []
    else if etm then b[..4]
    else
      var first := t.dec(s, b[..16]).plain;
      if |first| < 4 then [] else first[..4]
  }

  /** `OpeningKey::open` for a block cipher: authenticate the ciphertext first, or the plaintext afterwards. */
  function BlockOpen<S>(t: Transform<S>, mac: Mac, etm: bool, s: S, n: nat, text: Bytes, tag: Bytes): Option<Opened<S>> {
    if |text| < 4 then None
    else if etm then
      if mac(n, text) != tag then None else Some(t.dec(s, text[4..]))
    else
      var o := t.dec(s, text);
      if |o.plain| < 4 || mac(n, o.plain) != tag then None else Some(Opened(o.plain[4..], o.state))
  }

  function BlockKey<S>(t: Transform<S>, mac: Mac, macLen: nat, etm: bool): Key<S> {
    Key(
      Block(etm, macLen),
      (s: S, n: nat, p: Bytes) => BlockSeal(t, mac, etm, s, n, p),
      (s: S, n: nat, b: Bytes) => BlockLength(t, etm, s, b),
      (s: S, n: nat, text: Bytes, tag: Bytes) => BlockOpen(t, mac, etm, s, n, text, tag))
  }

  lemma BlockLawEtm<S(!new)>(t: Transform<S>, mac: Mac, macLen: nat, s: S, n: nat, plain: Bytes)
    requires Reversible(t) && MacSized(mac, macLen) && Formed(Block(true, macLen), plain)
    ensures LawAt(BlockKey(t, mac, macLen, true), s, n, plain)
  {
    var body := plain[4..];
    assert |body| >= 16;
    assert ReversibleAt(t, s, body);
    var c := BlockSeal(t, mac, true, s, n, plain);
    assert c.text[4..] == t.enc(s, body).plain && c.text[..4] == plain[..4];
    assert |c.tag| == macLen;
    assert (c.text + c.tag)[..16][..4] == c.text[..4];
  }

  lemma BlockLawPlain<S(!new)>(t: Transform<S>, mac: Mac, macLen: nat, s: S, n: nat, plain: Bytes)
    requires Reversible(t) && MacSized(mac, macLen) && Formed(Block(false, macLen), plain)
    ensures LawAt(BlockKey(t, mac, macLen, false), s, n, plain)
  {
    assert |plain| >= 16;
    assert ReversibleAt(t, s, plain);
    var c := BlockSeal(t, mac, false, s, n, plain);
    assert |c.tag| == macLen;
    assert (c.text + c.tag)[..16] == c.text[..16];
    assert (c.text + c.tag)[..16][..16] == c.text[..16];
  }

  lemma BlockLawful<S(!new)>(t: Transform<S>, mac: Mac, macLen: nat, etm: bool)
    requires Reversible(t) && MacSized(mac, macLen)
    ensures Lawful(BlockKey(t, mac, macLen, etm))
  {
    forall s: S, n: nat, plain: Bytes | Formed(Block(etm, macLen), plain)
      ensures LawAt(BlockKey(t, mac, macLen, etm), s, n, plain)
    {
      if etm {
        BlockLawEtm(t, mac, macLen, s, n, plain);
      } else {
        BlockLawPlain(t, mac, macLen, s, n, plain);
      }
    }
  }

  /** What the MAC covers: the sequence number and the whole packet, the length included, as ciphertext or as
      plaintext. */
  predicate Authentic<S>(t: Transform<S>, mac: Mac, etm: bool, e: End<S>, text: Bytes, tag: Bytes) {
    tag == mac(e.seqn, if etm then text else t.dec(e.state, text).plain)
  }

  /** Nothing is accepted whose last bytes are not the MAC of everything before them, under the sequence number
      it is read with. */
  lemma AcceptedIsAuthentic<S(!new)>(t: Transform<S>, mac: Mac, macLen: nat, etm: bool, e: End<S>, input: Bytes)
    requires OpenPacket(BlockKey(t, mac, macLen, etm), e, input).Ok?
    ensures
      var total := |input| - |OpenPacket(BlockKey(t, mac, macLen, etm), e, input).value.rest|;
      macLen <= total && Authentic(t, mac, etm, e, input[..total - macLen], input[total - macLen..total])
  {
    var k := BlockKey(t, mac, macLen, etm);
    var len := k.length(e.state, e.seqn, input[..Probe(k.mode)]);
    var total := 4 + GetU32(len) + macLen;
    assert |OpenPacket(k, e, input).value.rest| == |input| - total;
    assert BlockOpen(t, mac, etm, e.state, e.seqn, input[..total - macLen], input[total - macLen..total]).Some?;
  }

  /** What is sealed ends with that MAC; with the MAC over the ciphertext, the length stays readable. */
  lemma SealedIsAuthentic<S(!new)>(t: Transform<S>, mac: Mac, macLen: nat, etm: bool, e: End<S>, payload: Bytes, pad: Bytes)
    requires Reversible(t) && MacSized(mac, macLen) && Padded(Block(etm, macLen), payload, pad)
    ensures
      var wire := SealPacket(BlockKey(t, mac, macLen, etm), e, payload, pad).wire;
      && |wire| == 5 + |payload| + |pad| + macLen
      && Authentic(t, mac, etm, e, wire[..|wire| - macLen], wire[|wire| - macLen..])
      && (etm ==> wire[..4] == Packet(Block(etm, macLen), payload, pad)[..4])
  {
    var m, k := Block(etm, macLen), BlockKey(t, mac, macLen, etm);
    var plain := Packet(m, payload, pad);
    PacketFormed(m, payload, pad);
    PacketBytes(m, payload, pad);
    BlockLawful(t, mac, macLen, etm);
    assert LawAt(k, e.state, e.seqn, plain);
    var c := BlockSeal(t, mac, etm, e.state, e.seqn, plain);
    assert (c.text + c.tag)[..|c.text|] == c.text && (c.text + c.tag)[|c.text|..] == c.tag;
    if !etm {
      assert ReversibleAt(t, e.state, plain);
    }
  }

  /** Counter mode: the state is the keystream position. */
  function CtrTransform(stream: nat -> Byte): Transform<nat> {
    Transform((pos: nat, data: Bytes) => CtrApply(stream, pos, data), (pos: nat, data: Bytes) => CtrApply(stream, pos, data))
  }

  function CtrApply(stream: nat -> Byte, pos: nat, data: Bytes): Opened<nat> {
    Opened(Keystreamed(stream, pos, data), pos + |data|)
  }

  lemma CtrReversible(stream: nat -> Byte)
    ensures Reversible(CtrTransform(stream))
  {
    forall pos: nat, data: Bytes | |data| % 16 == 0 && |data| >= 16
      ensures ReversibleAt(CtrTransform(stream), pos, data)
    {
      KeystreamInverse(stream, pos, data);
      KeystreamPrefix(stream, pos, Keystreamed(stream, pos, data), 16);
      assert data[..16][..4] == data[..4];
    }
  }

  /** Cipher block chaining: the state is the last ciphertext block. */
  ghost function CbcTransform(c: BlockCipher): Transform<Bytes>
    requires Sized(c)
  {
    Transform(
      (iv: Bytes, data: Bytes) => if |iv| != c.size then Opened(data, iv) else
        var r := CbcEncrypt(c, iv, data); Opened(r.data, r.iv),
      (iv: Bytes, data: Bytes) => if |iv| != c.size then Opened(data, iv) else
        var r := CbcDecrypt(c, iv, data); Opened(r.data, r.iv))
  }

  /** Blocks of 4 to 16 bytes: AES and triple DES alike. */
  lemma CbcReversible(c: BlockCipher)
    requires Sized(c) && Inverts(c) && 4 <= c.size <= 16
    ensures Reversible(CbcTransform(c))
  {
    forall iv: Bytes, data: Bytes | |data| % 16 == 0 && |data| >= 16
      ensures ReversibleAt(CbcTransform(c), iv, data)
    {
      if |iv| == c.size {
        CbcInverse(c, iv, data);
        var sealed := CbcEncrypt(c, iv, data).data;
        CbcProbe(c, iv, sealed, 16);
        var probe := CbcDecrypt(c, iv, sealed[..16]).data;
        assert probe[..4] == probe[..c.size][..4] && data[..4] == data[..c.size][..4];
      } else {
        assert data[..16][..4] == data[..4];
      }
    }
  }

  /** Every packet sequence sealed in counter mode reads back, whichever way the MAC is taken. */
  lemma CtrRoundTrip(stream: nat -> Byte, mac: Mac, macLen: nat, etm: bool, e: End<nat>, items: seq<Framing.Item>, rest: Bytes)
    requires MacSized(mac, macLen)
    requires forall i :: 0 <= i < |items| ==> Sendable(Block(etm, macLen), items[i])
    ensures
      var k := BlockKey(CtrTransform(stream), mac, macLen, etm);
      var w := SealAll(k, e, items);
      OpenAll(k, e, w.wire + rest, |items|) == Ok(AllReceived(PayloadsOf(items), w.end, rest))
  {
    CtrReversible(stream);
    BlockLawful(CtrTransform(stream), mac, macLen, etm);
    SequenceRoundTrip(BlockKey(CtrTransform(stream), mac, macLen, etm), e, items, rest);
  }

  /** The keystream goes on from packet to packet: no byte of it is used twice. */
  lemma {:induction false} CtrAdvances(stream: nat -> Byte, mac: Mac, macLen: nat, etm: bool, e: End<nat>, items: seq<Framing.Item>)
    requires MacSized(mac, macLen)
    requires forall i :: 0 <= i < |items| ==> Sendable(Block(etm, macLen), items[i])
    ensures
      var k: Key<nat> := BlockKey(CtrTransform(stream), mac, macLen, etm);
      var w := SealAll<nat>(k, e, items);
      w.end.state + |items| * (macLen + if etm then 4 else 0) == e.state + |w.wire|
    decreases |items|
  {
    if items != [] {
      var k: Key<nat> := BlockKey(CtrTransform(stream), mac, macLen, etm);
      assert Sendable(k.mode, items[0]);
      var w := SealPacket(k, e, items[0].payload, items[0].pad);
      CtrAdvances(stream, mac, macLen, etm, w.end, items[1..]);
      var each := macLen + if etm then 4 else 0;
      assert |items| * each == (|items| - 1) * each + each;
    }
  }

  /** ... and so does every sequence sealed with chained blocks. */
  lemma CbcRoundTrip(c: BlockCipher, mac: Mac, macLen: nat, etm: bool, e: End<Bytes>, items: seq<Framing.Item>, rest: Bytes)
    requires Sized(c) && Inverts(c) && 4 <= c.size <= 16 && MacSized(mac, macLen)
    requires forall i :: 0 <= i < |items| ==> Sendable(Block(etm, macLen), items[i])
    ensures
      var k := BlockKey(CbcTransform(c), mac, macLen, etm);
      var w := SealAll(k, e, items);
      OpenAll(k, e, w.wire + rest, |items|) == Ok(AllReceived(PayloadsOf(items), w.end, rest))
  {
    CbcReversible(c);
    BlockLawful(CbcTransform(c), mac, macLen, etm);
    SequenceRoundTrip(BlockKey(CbcTransform(c), mac, macLen, etm), e, items, rest);
  }

  // ---------------------------------------------------------------------- GCM

  datatype AeadOut = AeadOut(text: Bytes, tag: Bytes)

  /** An AEAD under some key: nonce and associated data to ciphertext and tag, and back. */
  datatype Aead = Aead(seal: (nat, Bytes, Bytes) -> AeadOut, open: (nat, Bytes, Bytes, Bytes) -> Option<Bytes>)

  ghost predicate AeadLawful(a: Aead) {
    forall nonce: nat, aad: Bytes, plain: Bytes :: AeadLawAt(a, nonce, aad, plain)
  }

  ghost predicate AeadLawAt(a: Aead, nonce: nat, aad: Bytes, plain: Bytes) {
    var c := a.seal(nonce, aad, plain);
    |c.text| == |plain| && |c.tag| == 16 && a.open(nonce, aad, c.text, c.tag) == Some(plain)
  }

  /** The length travels in the clear as associated data; the nonce advances with every packet. */
  function GcmKey(a: Aead): Key<nat> {
    Key(
      Gcm,
      (s: nat, n: nat, p: Bytes) =>
        if |p| < 4 then Sealed(p, [], s)
        else var c := a.seal(s, p[..4], p[4..]); Sealed(p[..4] + c.text, c.tag, Nonces.Next(s)),
      (s: nat, n: nat, b: Bytes) => b,
      (s: nat, n: nat, text: Bytes, tag: Bytes) =>
        if |text| < 4 then None
        else
          match a.open(s, text[..4], text[4..], tag)
          case None => None
          case Some(plain) => Some(Opened(plain, Nonces.Next(s))))
  }

  lemma GcmLawful(a: Aead)
    requires AeadLawful(a)
    ensures Lawful(GcmKey(a))
  {
    forall s: nat, n: nat, plain: Bytes | Formed(Gcm, plain)
      ensures LawAt(GcmKey(a), s, n, plain)
    {
      assert AeadLawAt(a, s, plain[..4], plain[4..]);
      var c := a.seal(s, plain[..4], plain[4..]);
      var text := plain[..4] + c.text;
      assert text[..4] == plain[..4] && text[4..] == c.text && (text + c.tag)[..4] == plain[..4];
    }
  }

  lemma GcmRoundTrip(a: Aead, e: End<nat>, items: seq<Framing.Item>, rest: Bytes)
    requires AeadLawful(a) && forall i :: 0 <= i < |items| ==> Sendable(Gcm, items[i])
    ensures
      var w := SealAll(GcmKey(a), e, items);
      OpenAll(GcmKey(a), e, w.wire + rest, |items|) == Ok(AllReceived(PayloadsOf(items), w.end, rest))
  {
    GcmLawful(a);
    SequenceRoundTrip(GcmKey(a), e, items, rest);
  }

  /** The packet after `n` others is sealed under the `n`-th nonce after the first. */
  lemma {:induction false} GcmAdvances(a: Aead, e: End<nat>, items: seq<Framing.Item>)
    requires forall i :: 0 <= i < |items| ==> Sendable(Gcm, items[i])
    ensures SealAll(GcmKey(a), e, items).end.state == Nonces.Used(e.state, |items|)
    decreases |items|
  {
    if items != [] {
      assert Sendable(Gcm, items[0]);
      var w := SealPacket(GcmKey(a), e, items[0].payload, items[0].pad);
      GcmAdvances(a, w.end, items[1..]);
      Nonces.UsedLater(e.state, |items| - 1);
    }
  }

  /** Nothing is accepted that the AEAD does not open under the current nonce, with the length authenticated. */
  lemma AcceptedByAead(a: Aead, e: End<nat>, input: Bytes)
    requires OpenPacket(GcmKey(a), e, input).Ok?
    ensures
      var got := OpenPacket(GcmKey(a), e, input).value;
      var total := |input| - |got.rest|;
      && 20 <= total && a.open(e.state, input[..4], input[4..total - 16], input[total - 16..total]).Some?
      && got.end.state == Nonces.Next(e.state)
  {
    var total := 4 + GetU32(input[..4]) + 16;
    assert |OpenPacket(GcmKey(a), e, input).value.rest| == |input| - total;
    assert input[..total - 16][..4] == input[..4] && input[..total - 16][4..] == input[4..total - 16];
  }

  // ------------------------------------------------------- ChaCha20-Poly1305

  /** The OpenSSH construction under some key: the sequence number is the nonce, and the length is
      encrypted on its own so that four bytes can be opened ahead of the rest. */
  datatype OpensshAead = OpensshAead(
    seal: (nat, Bytes) -> AeadOut, length: (nat, Bytes) -> Bytes, open: (nat, Bytes, Bytes) -> Option<Bytes>)

  ghost predicate OpensshLawful(a: OpensshAead) {
    forall n: nat, packet: Bytes :: |packet| >= 4 ==> OpensshLawAt(a, n, packet)
  }

  ghost predicate OpensshLawAt(a: OpensshAead, n: nat, packet: Bytes)
    requires |packet| >= 4
  {
    var c := a.seal(n, packet);
    && |c.text| == |packet| && |c.tag| == 16
    && a.length(n, c.text[..4]) == packet[..4]
    && a.open(n, c.text, c.tag) == Some(packet[4..])
  }

  function ChaChaKey(a: OpensshAead): Key<int> {
    Key(
      ChaCha,
      (s: int, n: nat, p: Bytes) => var c := a.seal(n, p); Sealed(c.text, c.tag, s),
      (s: int, n: nat, b: Bytes) => a.length(n, b),
      (s: int, n: nat, text: Bytes, tag: Bytes) =>
        match a.open(n, text, tag)
        case None => None
        case Some(plain) => Some(Opened(plain, s)))
  }

  lemma ChaChaLawful(a: OpensshAead)
    requires OpensshLawful(a)
    ensures Lawful(ChaChaKey(a))
  {
    forall s: int, n: nat, plain: Bytes | Formed(ChaCha, plain)
      ensures LawAt(ChaChaKey(a), s, n, plain)
    {
      assert OpensshLawAt(a, n, plain);
      var c := a.seal(n, plain);
      assert (c.text + c.tag)[..4] == c.text[..4];
    }
  }

  lemma ChaChaRoundTrip(a: OpensshAead, e: End<int>, items: seq<Framing.Item>, rest: Bytes)
    requires OpensshLawful(a) && forall i :: 0 <= i < |items| ==> Sendable(ChaCha, items[i])
    ensures
      var w := SealAll(ChaChaKey(a), e, items);
      OpenAll(ChaChaKey(a), e, w.wire + rest, |items|) == Ok(AllReceived(PayloadsOf(items), w.end, rest))
  {
    ChaChaLawful(a);
    SequenceRoundTrip(ChaChaKey(a), e, items, rest);
  }
}
