/** The SSH data representation used by the modelled messages (section 5 of RFC 4251). */
module Wire {
  import opened Common

  type Bytes = seq<Byte>

  /** A `uint32`, most significant byte first. */
  function PutU32(n: nat): (r: Bytes)
    requires n <= U32_MAX
    ensures |r| == 4
  {
    var q1 := n / 256;
    var q2 := q1 / 256;
    [q2 / 256, q2 % 256, q1 % 256, n % 256]
  }

  function GetU32(b: Bytes): (n: nat)
    requires |b| >= 4
    ensures n <= U32_MAX
  {
    var b0: int, b1: int, b2: int, b3: int := b[0], b[1], b[2], b[3];
    ((b0 * 256 + b1) * 256 + b2) * 256 + b3
  }

  lemma U32RoundTrip(n: nat, rest: Bytes)
    requires n <= U32_MAX
    ensures GetU32(PutU32(n) + rest) == n
    ensures (PutU32(n) + rest)[4..] == rest
  {
  }

  /** Four bytes, the most significant first. */
  predicate BigEndian(b: Bytes, n: nat) {
    && |b| == 4
    && var b0: int, b1: int, b2: int, b3: int := b[0], b[1], b[2], b[3];
    n == 0x100_0000 * b0 + 0x1_0000 * b1 + 0x100 * b2 + b3
  }

  lemma U32BigEndian(n: nat)
    requires n <= U32_MAX
    ensures BigEndian(PutU32(n), n)
  {
    U32RoundTrip(n, []);
    assert PutU32(n) + [] == PutU32(n);
  }

  lemma U32Canonical(b: Bytes)
    requires |b| >= 4
    ensures PutU32(GetU32(b)) == b[..4]
  {
    var b0: int, b1: int, b2: int, b3: int := b[0], b[1], b[2], b[3];
    var q2 := b0 * 256 + b1;
    var q1 := q2 * 256 + b2;
    var n := q1 * 256 + b3;
    assert n / 256 == q1 && n % 256 == b3;
    assert q1 / 256 == q2 && q1 % 256 == b2;
    assert q2 / 256 == b0 && q2 % 256 == b1;
  }

  /** A `string`: its length, then its bytes. */
  function PutString(s: Bytes): (r: Bytes)
    requires |s| <= U32_MAX
    ensures |r| == 4 + |s|
  {
    PutU32(|s|) + s
  }

  datatype Parsed<+T> = Parsed(value: T, rest: Bytes)

  function TakeU32(b: Bytes): Option<Parsed<nat>> {
    if |b| < 4 then None else Some(Parsed(GetU32(b), b[4..]))
  }

  function TakeString(b: Bytes): Option<Parsed<Bytes>> {
    if |b| < 4 || |b| - 4 < GetU32(b) then None
    else Some(Parsed(b[4..4 + GetU32(b)], b[4 + GetU32(b)..]))
  }

  /** `ensure_end`: the field must be the last one. */
  function Last<T>(p: Option<Parsed<T>>): Option<T> {
    if p.Some? && p.value.rest == [] then Some(p.value.value) else None
  }

  lemma StringRoundTrip(s: Bytes, rest: Bytes)
    requires |s| <= U32_MAX
    ensures TakeString(PutString(s) + rest) == Some(Parsed(s, rest))
  {
    var b := PutString(s) + rest;
    assert b == PutU32(|s|) + (s + rest);
    U32RoundTrip(|s|, s + rest);
    assert b[4..] == s + rest;
    assert b[4..4 + |s|] == s && b[4 + |s|..] == rest;
  }

  lemma StringCanonical(b: Bytes)
    requires TakeString(b).Some?
    ensures |TakeString(b).value.value| <= U32_MAX
    ensures PutString(TakeString(b).value.value) + TakeString(b).value.rest == b
  {
    U32Canonical(b);
    var s := TakeString(b).value.value;
    assert |s| == GetU32(b);
  }
}
