/**
 Padding arithmetic of the packet formats (section 6 of RFC 4253): one formula
 per cipher mode, as written in russh/src/cipher.
 */
module Padding {
  const PACKET_LENGTH_LEN := 4
  const PADDING_LENGTH_LEN := 1
  const MINIMUM_PACKET_LEN := 16
  const MAXIMUM_PACKET_LEN_BASELINE := 256 * 1024
  const CHANNEL_EXTENDED_DATA_OVERHEAD := 1 + 4 + 4 + 4
  const MAXIMUM_PADDING_LEN := 19
  const MAXIMUM_PACKET_LEN :=
    MAXIMUM_PACKET_LEN_BASELINE + PADDING_LENGTH_LEN + CHANNEL_EXTENDED_DATA_OVERHEAD + MAXIMUM_PADDING_LEN

  /** The cipher families; block ciphers come with a MAC, computed before or after encryption. */
  datatype Mode = Clear | Block(etm: bool, macLen: nat) | Gcm | ChaCha

  function BlockSize(m: Mode): nat {
    match m
    case Clear => 8
    case Block(_, _) => 16
    case Gcm => 16
    case ChaCha => 8
  }

  /** Bytes at the front of a packet that are not part of the padded region. */
  function Skipped(m: Mode): nat {
    match m
    case Clear => 0
    case Block(etm, _) => if etm then PACKET_LENGTH_LEN else 0
    case Gcm => PACKET_LENGTH_LEN
    case ChaCha => PACKET_LENGTH_LEN
  }

  /** How many bytes the reader takes off the wire to learn the packet length. */
  function Probe(m: Mode): nat {
    if m.Block? then 16 else PACKET_LENGTH_LEN
  }

  function TagLen(m: Mode): nat {
    match m
    case Clear => 0
    case Block(_, macLen) => macLen
    case Gcm => 16
    case ChaCha => 16
  }

  function Raised(padding: int, block: nat): int {
    if padding < PACKET_LENGTH_LEN then padding + block else padding
  }

  /** `padding_length` of each sealing key, as a function of the payload length. */
  function PaddingLength(m: Mode, len: nat): int {
    match m
    case Clear => Raised(8 - (5 + len) % 8, 8)
    case Block(etm, macLen) =>
      var pll := if etm then 0 else PACKET_LENGTH_LEN;
      Raised(
        if len + PACKET_LENGTH_LEN + PADDING_LENGTH_LEN + macLen <= MINIMUM_PACKET_LEN
        then MINIMUM_PACKET_LEN - len - PADDING_LENGTH_LEN - pll
        else 16 - (pll + PADDING_LENGTH_LEN + len) % 16,
        16)
    case Gcm =>
      Raised(
        if len + PACKET_LENGTH_LEN + PADDING_LENGTH_LEN <= MINIMUM_PACKET_LEN
        then MINIMUM_PACKET_LEN - len - PADDING_LENGTH_LEN
        else 16 - (PADDING_LENGTH_LEN + len) % 16,
        16)
    case ChaCha =>
      Raised(
        if len + PACKET_LENGTH_LEN + PADDING_LENGTH_LEN <= MINIMUM_PACKET_LEN
        then MINIMUM_PACKET_LEN - len - PADDING_LENGTH_LEN
        else 8 - (PADDING_LENGTH_LEN + len) % 8,
        8)
  }

  /** The `packet_length` field: padding-length byte, payload and padding. */
  function PacketLength(m: Mode, len: nat): int {
    PADDING_LENGTH_LEN + len + PaddingLength(m, len)
  }

  /** Padding a region of `x` bytes: at least four bytes, whole blocks, and no shorter padding does. */
  lemma Rounding8(x: nat)
    ensures
      var p := Raised(8 - x % 8, 8);
      4 <= p <= 11 && (x + p) % 8 == 0
  {
    var q, r := x / 8, x % 8;
    assert x == 8 * q + r;
    assert x + Raised(8 - r, 8) == 8 * (q + 1) + (if 8 - r < 4 then 8 else 0);
  }

  lemma Rounding16(x: nat)
    ensures
      var p := Raised(16 - x % 16, 16);
      4 <= p <= 19 && (x + p) % 16 == 0
  {
    var q, r := x / 16, x % 16;
    assert x == 16 * q + r;
    assert x + Raised(16 - r, 16) == 16 * (q + 1) + (if 16 - r < 4 then 16 else 0);
  }

  /** Two paddings that both fill whole blocks differ by whole blocks, so less than a block above four is least. */
  lemma LeastPadding(x: nat, block: nat, p: nat, other: nat)
    requires block == 8 || block == 16
    requires (x + p) % block == 0 && (x + other) % block == 0
    requires p < 4 + block && other >= 4
    ensures p <= other
  {
  }

  /** Every payload length, every mode: 4 to 19 bytes of padding, whole blocks in the padded region, and
      a packet no shorter than what the reader takes first. */
  lemma PaddingRules(m: Mode, len: nat)
    ensures 4 <= PaddingLength(m, len) <= MAXIMUM_PADDING_LEN
    ensures (PACKET_LENGTH_LEN - Skipped(m) + PacketLength(m, len)) % BlockSize(m) == 0
    ensures PACKET_LENGTH_LEN + PacketLength(m, len) + TagLen(m) >= Probe(m)
  {
    var region := PACKET_LENGTH_LEN - Skipped(m) + PADDING_LENGTH_LEN + len;
    if BlockSize(m) == 8 {
      Rounding8(region);
    } else {
      Rounding16(region);
    }
  }

  /** Above the minimum packet the padding is the least that fills whole blocks with at least four bytes. */
  lemma PaddingIsLeast(m: Mode, len: nat, other: nat)
    requires len + PACKET_LENGTH_LEN + PADDING_LENGTH_LEN > MINIMUM_PACKET_LEN
    requires other >= 4 && (PACKET_LENGTH_LEN - Skipped(m) + PADDING_LENGTH_LEN + len + other) % BlockSize(m) == 0
    ensures PaddingLength(m, len) <= other
  {
    PaddingRules(m, len);
    LeastPadding(PACKET_LENGTH_LEN - Skipped(m) + PADDING_LENGTH_LEN + len, BlockSize(m), PaddingLength(m, len), other);
  }

  /** A channel packet of up to 256 KiB, extended or not, passes the reader's size limit in every mode. */
  lemma ChannelPacketsPass(m: Mode, data: nat)
    requires data <= MAXIMUM_PACKET_LEN_BASELINE
    ensures PacketLength(m, data + CHANNEL_EXTENDED_DATA_OVERHEAD) <= MAXIMUM_PACKET_LEN
  {
    PaddingRules(m, data + CHANNEL_EXTENDED_DATA_OVERHEAD);
  }
}
