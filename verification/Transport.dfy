/**
 Exchange, derivation and framing together: after any completed run of the key
 exchange, what either side seals the other side reads back.
 */
module Transport {
  import opened Common
  import opened Wire
  import opened Framing
  import KeyDerivation
  import KeyExchange
  import opened TwoPartyExchange
  import Protocol
  import Messages
  import Staging
  import Padding
  import Ciphers
  import KeySwitch

  function SecretsOf(k: KeyExchange.NewKeys): KeyDerivation.Secrets {
    KeyDerivation.Secrets(k.shared, k.hash, k.sessionId)
  }

  /** The pair `compute_keys` derives for a side from its own view of the exchange. */
  ghost predicate DerivedBy(d: KeyDerivation.Digest, k: KeyExchange.NewKeys, l: KeyDerivation.Lengths,
                            pair: KeyDerivation.CipherPair, isServer: bool)
    requires KeyDerivation.Sized(d)
  {
    var s := SecretsOf(k);
    if isServer then
      && KeyDerivation.Derives(d, s, pair.localToRemote, 'D', 'B', 'F', l, l.serverMac)
      && KeyDerivation.Derives(d, s, pair.remoteToLocal, 'C', 'A', 'E', l, l.clientMac)
    else
      && KeyDerivation.Derives(d, s, pair.localToRemote, 'C', 'A', 'E', l, l.clientMac)
      && KeyDerivation.Derives(d, s, pair.remoteToLocal, 'D', 'B', 'F', l, l.serverMac)
  }

  /** How a cipher turns key material into a key and its initial state. */
  datatype Maker<!S> = Maker(key: KeyDerivation.Material -> Key<S>, state: KeyDerivation.Material -> S)

  ghost predicate MakesLawful<S(!new)>(make: Maker<S>) {
    forall m: KeyDerivation.Material :: Lawful(make.key(m))
  }

  /** `sealing` reads back under `opening`, packet for packet, from sequence number `seqn` on. */
  ghost predicate Carries<S>(make: Maker<S>, sealing: KeyDerivation.Material, opening: KeyDerivation.Material,
                             seqn: nat, items: seq<Item>, rest: Bytes)
    requires forall i :: 0 <= i < |items| ==> Sendable(make.key(sealing).mode, items[i])
  {
    var w := SealAll(make.key(sealing), End(make.state(sealing), seqn), items);
    OpenAll(make.key(opening), End(make.state(opening), seqn), w.wire + rest, |items|)
    == Ok(AllReceived(PayloadsOf(items), w.end, rest))
  }

  /**
   Whatever interleaving the exchange took, once both sides are done their traffic
   is mutually readable in both directions, each with its own cipher and MAC, for
   every list of payloads.
   */
  lemma TrafficAfterExchange<S(!new), T(!new)>(
      u: Setup, turns: seq<bool>, m: Net, d: KeyDerivation.Digest, l: KeyDerivation.Lengths,
      toServer: Maker<S>, toClient: Maker<T>, client: KeyDerivation.CipherPair, server: KeyDerivation.CipherPair,
      seqn: nat, sent: seq<Item>, seqn': nat, answered: seq<Item>, rest: Bytes)
    requires Agreeing(u) && NetRuns(Start(u), turns, m) && m.client.Finished? && m.server.Finished?
    requires KeyDerivation.Sized(d) && MakesLawful(toServer) && MakesLawful(toClient)
    requires DerivedBy(d, m.client.newkeys, l, client, false) && DerivedBy(d, m.server.newkeys, l, server, true)
    requires forall i :: 0 <= i < |sent| ==> Sendable(toServer.key(client.localToRemote).mode, sent[i])
    requires forall i :: 0 <= i < |answered| ==> Sendable(toClient.key(server.localToRemote).mode, answered[i])
    ensures Carries(toServer, client.localToRemote, server.remoteToLocal, seqn, sent, rest)
    ensures Carries(toClient, server.localToRemote, client.remoteToLocal, seqn', answered, rest)
  {
    ExchangeIdentity(u, turns, m);
    var k := SecretsOf(m.client.newkeys);
    KeyDerivation.DerivesUnique(d, k, client.localToRemote, server.remoteToLocal, 'C', 'A', 'E', l, l.clientMac);
    KeyDerivation.DerivesUnique(d, k, server.localToRemote, client.remoteToLocal, 'D', 'B', 'F', l, l.serverMac);
    SequenceRoundTrip(toServer.key(client.localToRemote), End(toServer.state(client.localToRemote), seqn), sent, rest);
    SequenceRoundTrip(toClient.key(server.localToRemote), End(toClient.state(server.localToRemote), seqn'), answered, rest);
  }

  // ------------------------------------------------------- from the clear to a cipher

  /** The keys of a connection that starts in the clear and changes to ChaCha20-Poly1305. */
  function FirstKeys(a: Ciphers.OpensshAead, strict: bool): KeySwitch.Epochs<int> {
    KeySwitch.Epochs((n: nat) => if n == 0 then Ciphers.ClearKey() else Ciphers.ChaChaKey(a), (n: nat) => 0, (n: nat) => strict)
  }

  function Writes(items: seq<Item>): seq<KeySwitch.Op> {
    if items == [] then [] else [KeySwitch.Write(items[0])] + Writes(items[1..])
  }

  /** Packets that can be sealed in some mode, none of them NEWKEYS. */
  predicate Ordinary(m: Padding.Mode, items: seq<Item>) {
    forall i :: 0 <= i < |items| ==> Sendable(m, items[i]) && items[i].payload != KeySwitch.NEWKEYS
  }

  /** A stream that is in order and quiet from `epoch` on. */
  ghost predicate Proper<S>(k: KeySwitch.Epochs<S>, ops: seq<KeySwitch.Op>, epoch: nat, waiting: bool) {
    && KeySwitch.AllFit(k, ops, epoch)
    && KeySwitch.Alternates(KeySwitch.KindsOf(k, ops, epoch), waiting)
    && KeySwitch.Quiet(KeySwitch.KindsOf(k, ops, epoch), waiting)
  }

  lemma ProperOne<S>(k: KeySwitch.Epochs<S>, op: KeySwitch.Op, ops: seq<KeySwitch.Op>, epoch: nat, waiting: bool)
    requires KeySwitch.Fits(k, op, epoch) && op.TakeKey? == waiting
    requires Proper(k, ops, KeySwitch.After(op, epoch), op.SendNewKeys?)
    ensures Proper(k, [op] + ops, epoch, waiting)
  {
    var all := [op] + ops;
    assert all[1..] == ops;
    var ks := KeySwitch.KindsOf(k, all, epoch);
    assert ks[0] == KeySwitch.KindOf(k, op, epoch) && ks[1..] == KeySwitch.KindsOf(k, ops, KeySwitch.After(op, epoch));
  }

  lemma {:induction false} ProperWrites<S>(k: KeySwitch.Epochs<S>, items: seq<Item>, tail: seq<KeySwitch.Op>, epoch: nat)
    requires Ordinary(k.key(epoch).mode, items) && Proper(k, tail, epoch, false)
    ensures Proper(k, Writes(items) + tail, epoch, false)
  {
    if items == [] {
      assert Writes(items) + tail == tail;
    } else {
      ProperWrites(k, items[1..], tail, epoch);
      ProperOne(k, KeySwitch.Write(items[0]), Writes(items[1..]) + tail, epoch, false);
      assert Writes(items) + tail == [KeySwitch.Write(items[0])] + (Writes(items[1..]) + tail);
    }
  }

  /** The first key change of a connection: any packets in the clear, NEWKEYS in the clear, and any packets
      under the new key read back, although the two ciphers pad differently. */
  lemma FirstSwitch(a: Ciphers.OpensshAead, strict: bool, before: seq<Item>, pad: Bytes, later: seq<Item>, seqn: nat, rest: Bytes)
    requires Ciphers.OpensshLawful(a) && |pad| == 10 && Ordinary(Padding.Clear, before) && Ordinary(Padding.ChaCha, later)
    ensures
      var k := FirstKeys(a, strict);
      var ops := Writes(before) + ([KeySwitch.SendNewKeys(pad)] + ([KeySwitch.TakeKey] + (Writes(later) + [])));
      KeySwitch.AllFit(k, ops, 0) && KeySwitch.Reads(k, ops, 0, End(0, seqn), false, rest)
  {
    var k := FirstKeys(a, strict);
    assert k.key(0) == Ciphers.ClearKey() && k.key(1) == Ciphers.ChaChaKey(a);
    assert KeySwitch.Fits(k, KeySwitch.SendNewKeys(pad), 0) by {
      assert (5 + |KeySwitch.NEWKEYS|) % 8 == 6;
    }
    ProperWrites(k, later, [], 1);
    var fresher := Writes(later) + [];
    ProperOne(k, KeySwitch.TakeKey, fresher, 0, true);
    ProperOne(k, KeySwitch.SendNewKeys(pad), [KeySwitch.TakeKey] + fresher, 0, false);
    var tail := [KeySwitch.SendNewKeys(pad)] + ([KeySwitch.TakeKey] + fresher);
    ProperWrites(k, before, tail, 0);
    Ciphers.ClearLawful();
    Ciphers.ChaChaLawful(a);
    KeySwitch.ReadsAcrossSwitches(k, Writes(before) + tail, 0, End(0, seqn), false, rest);
  }

  // ---------------------------------------------------- channel messages end to end

  /** Packets whose payloads are the frames. */
  predicate Packs(items: seq<Item>, frames: seq<Bytes>) {
    |items| == |frames| && forall i :: 0 <= i < |items| ==> items[i].payload == frames[i]
  }

  lemma {:induction false} PayloadsPacked(items: seq<Item>, frames: seq<Bytes>)
    requires Packs(items, frames)
    ensures PayloadsOf(items) == frames
  {
    if items != [] {
      PayloadsPacked(items[1..], frames[1..]);
    }
  }

  /**
   Whatever messages an `Encrypted` has issued: encoded, staged, found again by the
   flush loop, sealed under any lawful key, opened by the peer and decoded, they are
   the same messages in the same order, with nothing left over.
   */
  lemma IssuedArrive<S(!new)>(k: Key<S>, e: End<S>, issued: seq<Messages.Envelope>, items: seq<Item>, rest: Bytes)
    requires Lawful(k) && forall i :: 0 <= i < |items| ==> Sendable(k.mode, items[i])
    requires forall i :: 0 <= i < |issued| ==> Messages.Fits(issued[i])
    requires forall f :: f in Staging.Encoded(issued) ==> |f| <= U32_MAX
    requires
      var found := Staging.Frames(Messages.Staged(Staging.Encoded(issued)));
      found.Some? ==> Packs(items, found.value)
    ensures
      var w := SealAll(k, e, items);
      var got := OpenAll(k, e, w.wire + rest, |issued|);
      got.Ok? && got.value.rest == rest && got.value.end == w.end
      && Staging.Decoded(got.value.payloads) == Staging.All(issued)
  {
    Staging.FramesStaged(Staging.Encoded(issued));
    PayloadsPacked(items, Staging.Encoded(issued));
    SequenceRoundTrip(k, e, items, rest);
    Staging.EncodedDecode(issued);
  }
}
