/**
 The two ways russh runs a block cipher over packet data: a counter-mode
 keystream addressed by position (russh/src/cipher/block.rs) and cipher block
 chaining over exact blocks (russh/src/cipher/cbc.rs). The cipher itself is a
 parameter.
 */
module BlockModes {
  import opened Common
  import opened Wire

  // --------------------------------------------------------------- exclusive or

  function Pow2(n: nat): nat {
    if n == 0 then 1 else 2 * Pow2(n - 1)
  }

  /** Bitwise exclusive or of the low `n` bits. */
  function XorBits(a: nat, b: nat, n: nat): (r: nat)
    ensures r < Pow2(n)
  {
    if n == 0 then 0 else (if a % 2 == b % 2 then 0 else 1) + 2 * XorBits(a / 2, b / 2, n - 1)
  }

  lemma HalfOf(low: nat, rest: nat)
    requires low < 2
    ensures (low + 2 * rest) % 2 == low && (low + 2 * rest) / 2 == rest
  {
  }

  lemma {:induction false} XorBitsTwice(a: nat, b: nat, n: nat)
    requires a < Pow2(n)
    ensures XorBits(XorBits(a, b, n), b, n) == a
  {
    if n > 0 {
      XorBitsTwice(a / 2, b / 2, n - 1);
      var low, rest := if a % 2 == b % 2 then 0 else 1, XorBits(a / 2, b / 2, n - 1);
      HalfOf(low, rest);
    }
  }

  lemma ByteRange()
    ensures Pow2(8) == 256
  {
    assert Pow2(4) == 16;
  }

  function Xor(a: Byte, b: Byte): Byte {
    ByteRange();
    XorBits(a, b, 8)
  }

  lemma XorTwice(a: Byte, b: Byte)
    ensures Xor(Xor(a, b), b) == a
  {
    ByteRange();
    XorBitsTwice(a, b, 8);
  }

  function XorSeq(a: Bytes, b: Bytes): (r: Bytes)
    requires |a| == |b|
    ensures |r| == |a|
  {
    seq(|a|, i requires 0 <= i < |a| => Xor(a[i], b[i]))
  }

  lemma XorSeqTwice(a: Bytes, b: Bytes)
    requires |a| == |b|
    ensures XorSeq(XorSeq(a, b), b) == a
  {
    forall i | 0 <= i < |a|
      ensures XorSeq(XorSeq(a, b), b)[i] == a[i]
    {
      XorTwice(a[i], b[i]);
    }
  }

  // --------------------------------------------------------------- counter mode

  /** The keystream from position `pos` on, laid over the data. */
  function Keystreamed(stream: nat -> Byte, pos: nat, data: Bytes): (r: Bytes)
    ensures |r| == |data|
  {
    seq(|data|, i requires 0 <= i < |data| => Xor(data[i], stream(pos + i)))
  }

  /** Applying the keystream twice from the same position gives the data back. */
  lemma KeystreamInverse(stream: nat -> Byte, pos: nat, data: Bytes)
    ensures Keystreamed(stream, pos, Keystreamed(stream, pos, data)) == data
  {
    forall i | 0 <= i < |data|
      ensures Keystreamed(stream, pos, Keystreamed(stream, pos, data))[i] == data[i]
    {
      XorTwice(data[i], stream(pos + i));
    }
  }

  /** A prefix can be decrypted on its own: the packet-length probe. */
  lemma KeystreamPrefix(stream: nat -> Byte, pos: nat, data: Bytes, n: nat)
    requires n <= |data|
    ensures Keystreamed(stream, pos, data[..n]) == Keystreamed(stream, pos, data)[..n]
  {
  }

  /** `CtrWrapper`: the position survives between packets, the cipher is set up afresh each time. */
  class CtrWrapper {
    const keystream: nat -> Byte
    var pos: nat

    constructor (keystream: nat -> Byte)
      ensures this.keystream == keystream && pos == 0
    {
      this.keystream, pos := keystream, 0;
    }

    /** `unchecked_apply_keystream_inout` on `data[from..]`, in place. */
    method ApplyKeystream(data: array<Byte>, from: nat)
      requires from <= data.Length
      modifies this, data
      ensures pos == old(pos) + (data.Length - from)
      ensures data[..] == old(data[..from]) + Keystreamed(keystream, old(pos), old(data[from..]))
    {
      var i := from;
      while i < data.Length
        invariant from <= i <= data.Length && pos == old(pos)
        invariant forall k :: 0 <= k < from ==> data[k] == old(data[k])
        invariant forall k :: from <= k < i ==> data[k] == Xor(old(data[k]), keystream(pos + (k - from)))
        invariant forall k :: i <= k < data.Length ==> data[k] == old(data[k])
      {
        data[i] := Xor(data[i], keystream(pos + (i - from)));
        i := i + 1;
      }
      pos := pos + (data.Length - from);
    }
  }

  // ------------------------------------------------------- cipher block chaining

  /** A block cipher under some key: blocks of `size` bytes, and decryption undoes encryption. */
  datatype BlockCipher = BlockCipher(size: nat, enc: Bytes -> Bytes, dec: Bytes -> Bytes)

  ghost predicate Sized(c: BlockCipher) {
    && c.size > 0
    && (forall b: Bytes :: |b| == c.size ==> |c.enc(b)| == c.size)
    && (forall b: Bytes :: |b| == c.size ==> |c.dec(b)| == c.size)
  }

  ghost predicate Inverts(c: BlockCipher) {
    forall b: Bytes :: |b| == c.size ==> c.dec(c.enc(b)) == b
  }

  datatype Chained = Chained(data: Bytes, iv: Bytes)

  /** `encrypt_data`: exact blocks only; a shorter rest stays as it is. */
  ghost function CbcEncrypt(c: BlockCipher, iv: Bytes, data: Bytes): (r: Chained)
    requires Sized(c) && |iv| == c.size
    ensures |r.data| == |data| && |r.iv| == c.size
    decreases |data|
  {
    if |data| < c.size then Chained(data, iv)
    else
      var block := c.enc(XorSeq(data[..c.size], iv));
      var rest := CbcEncrypt(c, block, data[c.size..]);
      Chained(block + rest.data, rest.iv)
  }

  /** `decrypt_inner`. */
  ghost function CbcDecrypt(c: BlockCipher, iv: Bytes, data: Bytes): (r: Chained)
    requires Sized(c) && |iv| == c.size
    ensures |r.data| == |data| && |r.iv| == c.size
    decreases |data|
  {
    if |data| < c.size then Chained(data, iv)
    else
      var block := XorSeq(c.dec(data[..c.size]), iv);
      var rest := CbcDecrypt(c, data[..c.size], data[c.size..]);
      Chained(block + rest.data, rest.iv)
  }

  /** Decryption undoes encryption, and both sides end with the same chaining value. */
  lemma {:induction false} CbcInverse(c: BlockCipher, iv: Bytes, data: Bytes)
    requires Sized(c) && Inverts(c) && |iv| == c.size
    ensures CbcDecrypt(c, iv, CbcEncrypt(c, iv, data).data) == Chained(data, CbcEncrypt(c, iv, data).iv)
    decreases |data|
  {
    if |data| >= c.size {
      var mixed := XorSeq(data[..c.size], iv);
      var block := c.enc(mixed);
      var rest := CbcEncrypt(c, block, data[c.size..]);
      CbcInverse(c, block, data[c.size..]);
      XorSeqTwice(data[..c.size], iv);
      assert data == data[..c.size] + data[c.size..];
      CbcEncryptStep(c, iv, data[..c.size], data[c.size..]);
      CbcDecryptStep(c, iv, block, rest.data);
    }
  }

  /** The `i`-th block of the data. */
  function BlockAt(data: Bytes, size: nat, i: nat): Bytes
    requires i * size + size <= |data|
  {
    data[i * size..i * size + size]
  }

  /** Every block is encrypted together with the ciphertext block before it, the first one with the value
      chained from the last packet; the last ciphertext block is chained on. */
  lemma {:induction false} CbcChained(c: BlockCipher, iv: Bytes, data: Bytes, i: nat)
    requires Sized(c) && |iv| == c.size && i * c.size + c.size <= |data|
    ensures
      var r := CbcEncrypt(c, iv, data);
      && i * c.size + c.size <= |r.data| && (i > 0 ==> (i - 1) * c.size + c.size == i * c.size)
      && BlockAt(r.data, c.size, i) == c.enc(XorSeq(BlockAt(data, c.size, i), if i == 0 then iv else BlockAt(r.data, c.size, i - 1)))
      && (|data| < i * c.size + 2 * c.size ==> r.iv == BlockAt(r.data, c.size, i))
    decreases i
  {
    var r := CbcEncrypt(c, iv, data);
    var block := c.enc(XorSeq(data[..c.size], iv));
    var rest := CbcEncrypt(c, block, data[c.size..]);
    assert r.data[..c.size] == block && r.data[c.size..] == rest.data;
    if i == 0 {
      assert BlockAt(data, c.size, 0) == data[..c.size] && BlockAt(r.data, c.size, 0) == r.data[..c.size];
    } else {
      assert i * c.size == (i - 1) * c.size + c.size;
      CbcChained(c, block, data[c.size..], i - 1);
      BlockLater(data, c.size, i);
      BlockLater(r.data, c.size, i);
      if i == 1 {
        assert BlockAt(r.data, c.size, 0) == r.data[..c.size];
      } else {
        assert (i - 1) * c.size == (i - 2) * c.size + c.size;
        BlockLater(r.data, c.size, i - 1);
      }
    }
  }

  lemma BlockLater(data: Bytes, size: nat, i: nat)
    requires i > 0 && i * size + size <= |data| && i * size == (i - 1) * size + size
    ensures BlockAt(data, size, i) == BlockAt(data[size..], size, i - 1)
  {
  }

  lemma CbcFirst(c: BlockCipher, iv: Bytes, data: Bytes)
    requires Sized(c) && |iv| == c.size <= |data|
    ensures CbcDecrypt(c, iv, data).data[..c.size] == XorSeq(c.dec(data[..c.size]), iv)
  {
  }

  /** The packet-length probe: the first block decrypts on its own, whatever follows it. */
  lemma CbcProbe(c: BlockCipher, iv: Bytes, data: Bytes, n: nat)
    requires Sized(c) && |iv| == c.size <= n <= |data|
    ensures CbcDecrypt(c, iv, data[..n]).data[..c.size] == CbcDecrypt(c, iv, data).data[..c.size]
  {
    CbcFirst(c, iv, data);
    CbcFirst(c, iv, data[..n]);
    assert data[..n][..c.size] == data[..c.size];
  }

  /** One more block at the front. */
  lemma CbcEncryptStep(c: BlockCipher, iv: Bytes, chunk: Bytes, rest: Bytes)
    requires Sized(c) && |iv| == c.size == |chunk|
    ensures
      var block := c.enc(XorSeq(chunk, iv));
      var more := CbcEncrypt(c, block, rest);
      CbcEncrypt(c, iv, chunk + rest) == Chained(block + more.data, more.iv)
  {
    assert (chunk + rest)[..c.size] == chunk && (chunk + rest)[c.size..] == rest;
  }

  lemma CbcDecryptStep(c: BlockCipher, iv: Bytes, chunk: Bytes, rest: Bytes)
    requires Sized(c) && |iv| == c.size == |chunk|
    ensures
      var block := XorSeq(c.dec(chunk), iv);
      var more := CbcDecrypt(c, chunk, rest);
      CbcDecrypt(c, iv, chunk + rest) == Chained(block + more.data, more.iv)
  {
    assert (chunk + rest)[..c.size] == chunk && (chunk + rest)[c.size..] == rest;
  }

  /** What the loops keep: the part already transformed, then the rest as it will be. */
  ghost function EncryptLeft(c: BlockCipher, iv: Bytes, done: Bytes, rest: Bytes): Chained
    requires Sized(c) && |iv| == c.size
  {
    var left := CbcEncrypt(c, iv, rest);
    Chained(done + left.data, left.iv)
  }

  ghost function DecryptLeft(c: BlockCipher, iv: Bytes, done: Bytes, rest: Bytes): Chained
    requires Sized(c) && |iv| == c.size
  {
    var left := CbcDecrypt(c, iv, rest);
    Chained(done + left.data, left.iv)
  }

  lemma EncryptOneMore(c: BlockCipher, iv: Bytes, done: Bytes, chunk: Bytes, rest: Bytes)
    requires Sized(c) && |iv| == c.size == |chunk|
    ensures
      var block := c.enc(XorSeq(chunk, iv));
      EncryptLeft(c, iv, done, chunk + rest) == EncryptLeft(c, block, done + block, rest)
  {
    CbcEncryptStep(c, iv, chunk, rest);
    var block := c.enc(XorSeq(chunk, iv));
    Assoc(done, block, CbcEncrypt(c, block, rest).data);
  }

  lemma DecryptOneMore(c: BlockCipher, iv: Bytes, done: Bytes, chunk: Bytes, rest: Bytes)
    requires Sized(c) && |iv| == c.size == |chunk|
    ensures
      var block := XorSeq(c.dec(chunk), iv);
      DecryptLeft(c, iv, done, chunk + rest) == DecryptLeft(c, chunk, done + block, rest)
  {
    CbcDecryptStep(c, iv, chunk, rest);
    Assoc(done, XorSeq(c.dec(chunk), iv), CbcDecrypt(c, chunk, rest).data);
  }

  /** `CbcWrapper`: separate chaining values for the two directions, updated as blocks go by. */
  class CbcWrapper {
    const cipher: BlockCipher
    var encIv: Bytes
    var decIv: Bytes

    ghost predicate Valid()
      reads this
    {
      Sized(cipher) && |encIv| == cipher.size && |decIv| == cipher.size
    }

    constructor (cipher: BlockCipher, iv: Bytes)
      requires Sized(cipher) && |iv| == cipher.size
      ensures Valid() && this.cipher == cipher && encIv == iv && decIv == iv
    {
      this.cipher, encIv, decIv := cipher, iv, iv;
    }

    /** Overwrite one block of a buffer. */
    static method PutBlock(data: array<Byte>, at: nat, block: Bytes)
      requires at + |block| <= data.Length
      modifies data
      ensures data[..] == old(data[..at]) + block + old(data[at + |block|..])
    {
      forall k | 0 <= k < |block| {
        data[at + k] := block[k];
      }
    }

    /** One block in place; what is done so far followed by the rest still stands for the same whole. */
    method EncryptBlock(data: array<Byte>, i: nat, iv: Bytes) returns (next: Bytes)
      requires Sized(cipher) && |iv| == cipher.size && i + cipher.size <= data.Length
      modifies data
      ensures |next| == cipher.size
      ensures EncryptLeft(cipher, next, data[..i + cipher.size], data[i + cipher.size..])
           == EncryptLeft(cipher, iv, old(data[..i]), old(data[i..]))
    {
      var chunk := data[i..i + cipher.size];
      ghost var done, rest := data[..i], data[i + cipher.size..];
      next := cipher.enc(XorSeq(chunk, iv));
      assert data[i..] == chunk + rest;
      EncryptOneMore(cipher, iv, done, chunk, rest);
      PutBlock(data, i, next);
      assert data[..i + cipher.size] == done + next && data[i + cipher.size..] == rest;
    }

    method DecryptBlock(data: array<Byte>, i: nat, iv: Bytes) returns (next: Bytes)
      requires Sized(cipher) && |iv| == cipher.size && i + cipher.size <= data.Length
      modifies data
      ensures |next| == cipher.size
      ensures DecryptLeft(cipher, next, data[..i + cipher.size], data[i + cipher.size..])
           == DecryptLeft(cipher, iv, old(data[..i]), old(data[i..]))
    {
      next := data[i..i + cipher.size];
      ghost var done, rest := data[..i], data[i + cipher.size..];
      var block := XorSeq(cipher.dec(next), iv);
      assert data[i..] == next + rest;
      DecryptOneMore(cipher, iv, done, next, rest);
      PutBlock(data, i, block);
      assert data[..i + cipher.size] == done + block && data[i + cipher.size..] == rest;
    }

    /** `encrypt_data` in place: every exact block from the front. */
    method EncryptData(data: array<Byte>)
      requires Valid()
      modifies this`encIv, data
      ensures Valid()
      ensures Chained(data[..], encIv) == CbcEncrypt(cipher, old(encIv), old(data[..]))
    {
      var i := 0;
      ghost var whole := CbcEncrypt(cipher, encIv, data[..]);
      assert data[0..] == data[..] && data[..0] == [] && [] + whole.data == whole.data;
      while i + cipher.size <= data.Length
        invariant 0 <= i <= data.Length && Valid()
        invariant EncryptLeft(cipher, encIv, data[..i], data[i..]) == whole
        decreases data.Length - i
      {
        encIv := EncryptBlock(data, i, encIv);
        i := i + cipher.size;
      }
      assert data[..] == data[..i] + data[i..];
    }

    /** `decrypt_data`: `decrypt_inner` on the data, then its last ciphertext block is kept. */
    method DecryptData(data: array<Byte>)
      requires Valid()
      modifies this`decIv, data
      ensures Valid()
      ensures Chained(data[..], decIv) == CbcDecrypt(cipher, old(decIv), old(data[..]))
    {
      var iv := DecryptInner(data);
      decIv := iv;
    }

    /** `decrypt_inner`: decrypts in place and returns the next chaining value, leaving the state alone. */
    method DecryptInner(data: array<Byte>) returns (iv: Bytes)
      requires Valid()
      modifies data
      ensures |iv| == cipher.size
      ensures Chained(data[..], iv) == CbcDecrypt(cipher, decIv, old(data[..]))
    {
      var i := 0;
      iv := decIv;
      ghost var whole := CbcDecrypt(cipher, decIv, data[..]);
      assert data[0..] == data[..] && data[..0] == [] && [] + whole.data == whole.data;
      while i + cipher.size <= data.Length
        invariant 0 <= i <= data.Length && |iv| == cipher.size
        invariant DecryptLeft(cipher, iv, data[..i], data[i..]) == whole
        decreases data.Length - i
      {
        iv := DecryptBlock(data, i, iv);
        i := i + cipher.size;
      }
      assert data[..] == data[..i] + data[i..];
    }
  }
}
