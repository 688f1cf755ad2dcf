/** The AES-GCM nonce (russh/src/cipher/gcm.rs): twelve bytes advanced by a carry loop. */
module Nonces {
  import opened Common
  import opened Wire

  const NONCE_LEN := 12

  function Power(n: nat): (r: nat)
    ensures r >= 1
  {
    if n == 0 then 1 else 256 * Power(n - 1)
  }

  /** The number a big-endian byte string stands for. */
  function Value(b: Bytes): nat {
    if b == [] then 0 else b[0] * Power(|b| - 1) + Value(b[1..])
  }

  lemma DigitBound(digit: int, below: int, p: int)
    requires 0 <= digit <= 255 && 0 <= below < p
    ensures digit * p + below < 256 * p
  {
  }

  lemma {:induction false} ValueBound(b: Bytes)
    ensures Value(b) < Power(|b|)
  {
    if b != [] {
      ValueBound(b[1..]);
      DigitBound(b[0], Value(b[1..]), Power(|b| - 1));
    }
  }

  /** The nonce after this one. */
  function Next(v: nat): nat {
    (v + 1) % Power(NONCE_LEN)
  }

  /** One step of the carry loop, on the numbers it stands for. */
  lemma CarryStep(digit: int, below: int, belowNow: int, carry: int, p: int)
    requires 0 <= digit < 256 && below + 1 == belowNow + carry * p
    ensures digit * p + below + 1 == ((digit + carry) % 256) * p + belowNow + ((digit + carry) / 256) * (256 * p)
  {
    var n := digit + carry;
    assert n == 256 * (n / 256) + n % 256;
    assert digit * p + carry * p == n * p == (256 * (n / 256) + n % 256) * p;
    assert (256 * (n / 256)) * p == (n / 256) * (256 * p);
  }

  /** The carry loop of `advance`: the array becomes the number one higher, and the old value is used. */
  method Advance(nonce: array<Byte>) returns (previous: Bytes)
    modifies nonce
    ensures previous == old(nonce[..])
    ensures Value(nonce[..]) == (Value(old(nonce[..])) + 1) % Power(nonce.Length)
  {
    previous := nonce[..];
    var carry, i, n := 1, nonce.Length, nonce.Length;
    assert previous[n..] == [] && nonce[n..] == [];
    while i > 0
      invariant 0 <= i <= n && 0 <= carry <= 1
      invariant nonce[..i] == previous[..i]
      invariant Value(previous[i..]) + 1 == Value(nonce[i..]) + carry * Power(n - i)
    {
      i := i - 1;
      ghost var belowNow := nonce[i + 1..];
      var sum := nonce[i] + carry;
      assert nonce[i] == previous[i];
      CarryStep(previous[i], Value(previous[i + 1..]), Value(belowNow), carry, Power(n - i - 1));
      nonce[i] := sum % 256;
      carry := sum / 256;
      assert nonce[i..] == [nonce[i]] + belowNow;
      assert previous[i..] == [previous[i]] + previous[i + 1..];
      assert nonce[..i] == previous[..i];
    }
    assert previous[0..] == previous && nonce[0..] == nonce[..];
    ValueBound(previous);
    ValueBound(nonce[..]);
    WrapsOnce(Value(previous) + 1, Value(nonce[..]), carry, Power(n));
  }

  lemma Multiple(d: int, m: int)
    requires m > 0
    ensures d >= 1 ==> d * m >= m
    ensures d <= -1 ==> d * m <= -m
    ensures d == 0 ==> d * m == 0
  {
  }

  /** Quotient and remainder are unique. */
  lemma Remainder(x: int, q: int, r: int, m: int)
    requires 0 <= r < m && x == q * m + r
    ensures x % m == r
  {
    var d := x / m - q;
    assert d * m == r - x % m;
    Multiple(d, m);
  }

  lemma WrapsOnce(whole: nat, low: nat, carry: nat, p: nat)
    requires p > 0 && low < p && carry <= 1 && whole == low + carry * p
    ensures low == whole % p
  {
    Remainder(whole, carry, low, p);
  }

  lemma ModSucc(x: nat, m: nat)
    requires m > 0
    ensures (x % m + 1) % m == (x + 1) % m
  {
    var q, r := x / m, x % m;
    if r + 1 < m {
      Remainder(x + 1, q, r + 1, m);
      Remainder(r + 1, 0, r + 1, m);
    } else {
      Remainder(x + 1, q + 1, 0, m);
      Remainder(m, 1, 0, m);
    }
  }

  lemma ModApart(x: nat, y: nat, m: nat)
    requires m > 0 && x < y < x + m
    ensures x % m != y % m
  {
    var d := y / m - x / m;
    assert y - x == d * m + (y % m - x % m);
    Multiple(d, m);
  }

  /** The nonce used for the k-th packet after `v`. */
  function Used(v: nat, k: nat): nat {
    if k == 0 then v else Next(Used(v, k - 1))
  }

  lemma {:induction false} UsedLater(v: nat, k: nat)
    ensures Used(Next(v), k) == Used(v, k + 1)
  {
    if k > 0 {
      UsedLater(v, k - 1);
    }
  }

  lemma {:induction false} UsedClosed(v: nat, k: nat)
    requires v < Power(NONCE_LEN)
    ensures Used(v, k) == (v + k) % Power(NONCE_LEN)
  {
    var m := Power(NONCE_LEN);
    if k == 0 {
      Remainder(v, 0, v, m);
    } else {
      UsedClosed(v, k - 1);
      ModSucc(v + k - 1, m);
    }
  }

  /** No nonce is used twice within 2^96 packets. */
  lemma NoncesDiffer(v: nat, i: nat, j: nat)
    requires v < Power(12) && i < j < i + Power(12)
    ensures Used(v, i) != Used(v, j)
  {
    UsedClosed(v, i);
    UsedClosed(v, j);
    ModApart(v + i, v + j, Power(NONCE_LEN));
  }
}
