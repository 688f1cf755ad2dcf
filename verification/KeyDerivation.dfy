/**
 Key derivation (section 7.2 of RFC 4253; russh/src/kex/mod.rs): each key is a
 prefix of a hash expansion, and the letters make one side's sealing keys the
 other side's opening keys.
 */
module KeyDerivation {
  import opened Common
  import opened Wire

  /** A digest with a fixed, non-zero output length. */
  datatype Digest = Digest(hash: Bytes -> Bytes, len: nat)

  ghost predicate Sized(d: Digest) {
    d.len > 0 && forall b: Bytes :: |d.hash(b)| == d.len
  }

  /** What both parties know after the exchange; a key exchange without a secret contributes none. */
  datatype Secrets = Secrets(shared: Bytes, exchangeHash: Bytes, sessionId: Bytes)

  /** The bytes of round `i` in a key: hashed from the letter and the session identifier at first, and from
      all bytes before it afterwards. */
  predicate RoundOf(d: Digest, s: Secrets, letter: Byte, key: Bytes, i: nat)
    requires 0 <= i * d.len < |key|
  {
    var from, to := i * d.len, Min(|key|, (i + 1) * d.len);
    var input := s.shared + s.exchangeHash + if i == 0 then [letter] + s.sessionId else key[..from];
    from <= to && key[from..to] <= d.hash(input)
  }

  /** The key that section 7.2 of RFC 4253 demands, for whatever length: said of its bytes, round by round. */
  ghost predicate Derived(d: Digest, s: Secrets, letter: Byte, key: Bytes) {
    forall i: nat :: 0 <= i * d.len < |key| ==> RoundOf(d, s, letter, key, i)
  }

  /** There is only one such key of each length. */
  lemma {:induction false} DerivedOnce(d: Digest, s: Secrets, letter: Byte, a: Bytes, b: Bytes, n: nat)
    requires Sized(d) && |a| == |b| && Derived(d, s, letter, a) && Derived(d, s, letter, b)
    ensures n * d.len <= |a| ==> a[..n * d.len] == b[..n * d.len]
    ensures n * d.len > |a| ==> a == b
  {
    if n > 0 {
      DerivedOnce(d, s, letter, a, b, n - 1);
      var from, to := (n - 1) * d.len, Min(|a|, n * d.len);
      assert n * d.len == from + d.len;
      if from < |a| {
        assert RoundOf(d, s, letter, a, n - 1) && RoundOf(d, s, letter, b, n - 1);
        assert a[from..to] == b[from..to];
        assert a[..to] == a[..from] + a[from..to] && b[..to] == b[..from] + b[from..to];
        assert to == |a| ==> a[..to] == a && b[..to] == b;
      } else {
        assert from == |a| ==> a[..from] == a && b[..from] == b;
      }
    }
  }

  lemma DerivedUnique(d: Digest, s: Secrets, letter: Byte, a: Bytes, b: Bytes)
    requires Sized(d) && |a| == |b| && Derived(d, s, letter, a) && Derived(d, s, letter, b)
    ensures a == b
  {
    DerivedOnce(d, s, letter, a, b, |a| + 1);
    assert (|a| + 1) * d.len >= |a| + 1;
  }

  /** K1 || K2 || ... || Kn for one letter. */
  function Expansion(d: Digest, s: Secrets, letter: Byte, n: nat): Bytes {
    if n == 0 then []
    else if n == 1 then d.hash(s.shared + s.exchangeHash + [letter] + s.sessionId)
    else
      var most := Expansion(d, s, letter, n - 1);
      most + d.hash(s.shared + s.exchangeHash + most)
  }

  lemma {:induction false} ExpansionLength(d: Digest, s: Secrets, letter: Byte, n: nat)
    requires Sized(d)
    ensures |Expansion(d, s, letter, n)| == n * d.len
  {
    if n > 1 {
      ExpansionLength(d, s, letter, n - 1);
    }
  }

  /** A longer expansion only adds to a shorter one. */
  lemma {:induction false} ExpansionPrefix(d: Digest, s: Secrets, letter: Byte, m: nat, n: nat)
    requires m <= n
    ensures Expansion(d, s, letter, m) <= Expansion(d, s, letter, n)
    decreases n
  {
    if m < n && n > 1 {
      ExpansionPrefix(d, s, letter, m, n - 1);
    }
  }

  /** Every round of an expansion, cut anywhere, is what it should be. */
  lemma ExpansionDerived(d: Digest, s: Secrets, letter: Byte, n: nat, len: nat)
    requires Sized(d) && len <= |Expansion(d, s, letter, n)|
    ensures Derived(d, s, letter, Expansion(d, s, letter, n)[..len])
  {
    var key := Expansion(d, s, letter, n)[..len];
    ExpansionLength(d, s, letter, n);
    forall i: nat | 0 <= i * d.len < len
      ensures RoundOf(d, s, letter, key, i)
    {
      RoundDerived(d, s, letter, n, len, i);
    }
  }

  lemma RoundDerived(d: Digest, s: Secrets, letter: Byte, n: nat, len: nat, i: nat)
    requires Sized(d) && len <= |Expansion(d, s, letter, n)| && 0 <= i * d.len < len
    ensures RoundOf(d, s, letter, Expansion(d, s, letter, n)[..len], i)
  {
    ExpansionLength(d, s, letter, n);
    FewerRounds(i, n, d.len);
    ExpansionPrefix(d, s, letter, i, n);
    ExpansionPrefix(d, s, letter, i + 1, n);
    ExpansionLength(d, s, letter, i);
    var before := Expansion(d, s, letter, i);
    var input := s.shared + s.exchangeHash + if i == 0 then [letter] + s.sessionId else before;
    assert i == 0 ==> input == s.shared + s.exchangeHash + [letter] + s.sessionId;
    assert Expansion(d, s, letter, i + 1) == before + d.hash(input);
    CutRound(Expansion(d, s, letter, n), before, d.hash(input), len);
    assert (i + 1) * d.len == i * d.len + d.len;
  }

  lemma FewerRounds(i: nat, n: nat, size: nat)
    requires i * size < n * size
    ensures i < n
  {
    assert n <= i ==> n * size <= i * size;
  }

  /** A round in a key that may end in the middle of it. */
  lemma CutRound(all: Bytes, before: Bytes, round: Bytes, len: nat)
    requires before + round <= all && |before| < len <= |all|
    ensures all[..len][..|before|] == before
    ensures all[..len][|before|..Min(len, |before| + |round|)] <= round
  {
    assert before == (before + round)[..|before|] && round == (before + round)[|before|..];
  }

  /** Any number of rounds that gives enough bytes gives the same key. */
  lemma KeyIndependentOfRounds(d: Digest, s: Secrets, letter: Byte, len: nat, m: nat, n: nat)
    requires len <= |Expansion(d, s, letter, m)| && len <= |Expansion(d, s, letter, n)|
    ensures Expansion(d, s, letter, m)[..len] == Expansion(d, s, letter, n)[..len]
  {
    if m <= n {
      ExpansionPrefix(d, s, letter, m, n);
    } else {
      ExpansionPrefix(d, s, letter, n, m);
    }
  }

  /** The `compute_key` closure: hash, extend while too short, cut. */
  method ComputeKey(d: Digest, s: Secrets, letter: Byte, len: nat) returns (key: Bytes)
    requires Sized(d)
    ensures |key| == len && Derived(d, s, letter, key)
  {
    var buffer := s.shared;
    buffer := buffer + s.exchangeHash;
    buffer := buffer + [letter];
    buffer := buffer + s.sessionId;
    key := d.hash(buffer);
    ghost var rounds := 1;
    while |key| < len
      invariant rounds >= 1 && key == Expansion(d, s, letter, rounds)
      decreases len - |key|
    {
      buffer := s.shared;
      buffer := buffer + s.exchangeHash;
      buffer := buffer + key;
      key := key + d.hash(buffer);
      rounds := rounds + 1;
    }
    ExpansionDerived(d, s, letter, rounds, len);
    key := key[..len];
  }

  // ------------------------------------------------------------- both directions

  /** Lengths demanded by the negotiated cipher and MACs. */
  datatype Lengths = Lengths(key: nat, nonce: nat, clientMac: nat, serverMac: nat)

  datatype Material = Material(key: Bytes, nonce: Bytes, mac: Bytes)

  datatype CipherPair = CipherPair(localToRemote: Material, remoteToLocal: Material)

  function Letter(c: char): Byte
    requires c <= 'Z'
  {
    c as int
  }

  ghost predicate Derives(d: Digest, s: Secrets, m: Material, key: char, nonce: char, mac: char, l: Lengths, macLen: nat)
    requires key <= 'Z' && nonce <= 'Z' && mac <= 'Z'
  {
    && |m.key| == l.key && Derived(d, s, Letter(key), m.key)
    && |m.nonce| == l.nonce && Derived(d, s, Letter(nonce), m.nonce)
    && |m.mac| == macLen && Derived(d, s, Letter(mac), m.mac)
  }

  lemma DerivesUnique(d: Digest, s: Secrets, a: Material, b: Material, key: char, nonce: char, mac: char, l: Lengths, macLen: nat)
    requires Sized(d) && key <= 'Z' && nonce <= 'Z' && mac <= 'Z'
    requires Derives(d, s, a, key, nonce, mac, l, macLen) && Derives(d, s, b, key, nonce, mac, l, macLen)
    ensures a == b
  {
    DerivedUnique(d, s, Letter(key), a.key, b.key);
    DerivedUnique(d, s, Letter(nonce), a.nonce, b.nonce);
    DerivedUnique(d, s, Letter(mac), a.mac, b.mac);
  }

  /** `compute_keys`: letters A to F by role; `remoteMac` and `localMac` are the lengths of the two MAC keys. */
  method ComputeKeys(d: Digest, s: Secrets, l: Lengths, remoteMac: nat, localMac: nat, isServer: bool)
    returns (pair: CipherPair)
    requires Sized(d)
    ensures isServer ==>
      && Derives(d, s, pair.localToRemote, 'D', 'B', 'F', l, localMac)
      && Derives(d, s, pair.remoteToLocal, 'C', 'A', 'E', l, remoteMac)
    ensures !isServer ==>
      && Derives(d, s, pair.localToRemote, 'C', 'A', 'E', l, localMac)
      && Derives(d, s, pair.remoteToLocal, 'D', 'B', 'F', l, remoteMac)
  {
    var keyOut, keyIn := if isServer then 'D' else 'C', if isServer then 'C' else 'D';
    var nonceOut, nonceIn := if isServer then 'B' else 'A', if isServer then 'A' else 'B';
    var macOut, macIn := if isServer then 'F' else 'E', if isServer then 'E' else 'F';
    var key := ComputeKey(d, s, Letter(keyOut), l.key);
    var nonce := ComputeKey(d, s, Letter(nonceOut), l.nonce);
    var mac := ComputeKey(d, s, Letter(macOut), localMac);
    var out := Material(key, nonce, mac);
    key := ComputeKey(d, s, Letter(keyIn), l.key);
    nonce := ComputeKey(d, s, Letter(nonceIn), l.nonce);
    mac := ComputeKey(d, s, Letter(macIn), remoteMac);
    pair := CipherPair(out, Material(key, nonce, mac));
  }

  /** Client and server, given equal names and secrets: what one seals with the other opens with. */
  method BothSides(d: Digest, s: Secrets, l: Lengths) returns (client: CipherPair, server: CipherPair)
    requires Sized(d)
    ensures client.localToRemote == server.remoteToLocal
    ensures client.remoteToLocal == server.localToRemote
    ensures Derives(d, s, client.localToRemote, 'C', 'A', 'E', l, l.clientMac)
    ensures Derives(d, s, client.remoteToLocal, 'D', 'B', 'F', l, l.serverMac)
  {
    client := ComputeKeys(d, s, l, l.serverMac, l.clientMac, false);
    server := ComputeKeys(d, s, l, l.clientMac, l.serverMac, true);
    DerivesUnique(d, s, client.localToRemote, server.remoteToLocal, 'C', 'A', 'E', l, l.clientMac);
    DerivesUnique(d, s, client.remoteToLocal, server.localToRemote, 'D', 'B', 'F', l, l.serverMac);
  }
}
