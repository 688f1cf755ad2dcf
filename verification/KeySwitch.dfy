/**
 Changing keys in the middle of a stream (russh/src/session.rs, the NEWKEYS arms of
 russh/src/client/mod.rs and russh/src/server/mod.rs). A writer restarts its
 sequence number when it sends NEWKEYS, if it finds the exchange strict, but takes the
 new key only when its own exchange is done, which is when the peer's NEWKEYS arrives.
 A reader takes both when NEWKEYS arrives. `SessionSwitch` computes such streams from
 session runs.
 */
module KeySwitch {
  import opened Common
  import opened Wire
  import opened Padding
  import opened Framing

  const NEWKEYS: Bytes := [21]

  /** What happens at a writer: a packet is sealed, NEWKEYS is sealed, the new key is installed. With NEWKEYS
      go the verdicts of both ends on restarting the sequence number. */
  datatype Kind = Packet | Switch(writer: bool, reader: bool) | Install

  /** NEWKEYS and installation alternate, and the ends agree on every restart; `waiting` means that NEWKEYS
      has been sent and the new key is not in use yet. */
  predicate Alternates(ks: seq<Kind>, waiting: bool) {
    ks != [] ==>
      match ks[0]
      case Packet => Alternates(ks[1..], waiting)
      case Switch(writer, reader) => !waiting && writer == reader && Alternates(ks[1..], true)
      case Install => waiting && Alternates(ks[1..], false)
  }

  /** Nothing is sealed between NEWKEYS and the installation of the new key. */
  predicate Quiet(ks: seq<Kind>, waiting: bool) {
    ks != [] ==>
      match ks[0]
      case Packet => !waiting && Quiet(ks[1..], waiting)
      case Switch(_, _) => Quiet(ks[1..], true)
      case Install => Quiet(ks[1..], false)
  }

  // ------------------------------------------------------- which key, which number

  /** The key, counted from the first, and the sequence number a packet is processed with. */
  datatype Use = Use(epoch: nat, seqn: nat)

  function Restart(seqn: nat, strict: bool): nat {
    if strict then 0 else Bump(seqn)
  }

  /** What each packet is sealed with. */
  function Seals(ks: seq<Kind>, epoch: nat, seqn: nat): seq<Use> {
    if ks == [] then []
    else
      match ks[0]
      case Packet => [Use(epoch, seqn)] + Seals(ks[1..], epoch, Bump(seqn))
      case Switch(writer, _) => [Use(epoch, seqn)] + Seals(ks[1..], epoch, Restart(seqn, writer))
      case Install => Seals(ks[1..], epoch + 1, seqn)
  }

  /** What the reader of the same packets opens each of them with. */
  function Opens(ks: seq<Kind>, epoch: nat, seqn: nat): seq<Use> {
    if ks == [] then []
    else
      match ks[0]
      case Packet => [Use(epoch, seqn)] + Opens(ks[1..], epoch, Bump(seqn))
      case Switch(_, reader) => [Use(epoch, seqn)] + Opens(ks[1..], epoch + 1, Restart(seqn, reader))
      case Install => Opens(ks[1..], epoch, seqn)
  }

  lemma SameTails(a: Use, b: Use, s: seq<Use>, t: seq<Use>)
    ensures [a] + s == [b] + t <==> a == b && s == t
  {
    assert ([a] + s)[0] == a && ([b] + t)[0] == b && ([a] + s)[1..] == s && ([b] + t)[1..] == t;
  }

  /** Where the reader stands while the writer is at `epoch`. */
  function Ahead(epoch: nat, waiting: bool): nat {
    if waiting then epoch + 1 else epoch
  }

  /** Every packet is opened with the key and the sequence number it was sealed with if and only if no
      packet was sealed between a NEWKEYS and the installation that follows it. */
  lemma {:induction false} SwitchIff(ks: seq<Kind>, epoch: nat, seqn: nat, waiting: bool)
    requires Alternates(ks, waiting)
    ensures Seals(ks, epoch, seqn) == Opens(ks, Ahead(epoch, waiting), seqn) <==> Quiet(ks, waiting)
  {
    if ks != [] {
      var rest := ks[1..];
      match ks[0]
      case Packet =>
        SwitchIff(rest, epoch, Bump(seqn), waiting);
        SameTails(Use(epoch, seqn), Use(Ahead(epoch, waiting), seqn), Seals(rest, epoch, Bump(seqn)),
                  Opens(rest, Ahead(epoch, waiting), Bump(seqn)));
      case Switch(writer, _) =>
        var next := Restart(seqn, writer);
        SwitchIff(rest, epoch, next, true);
        SameTails(Use(epoch, seqn), Use(epoch, seqn), Seals(rest, epoch, next), Opens(rest, epoch + 1, next));
      case Install =>
        SwitchIff(rest, epoch + 1, seqn, false);
    }
  }

  /** The first packet under a new key: numbered 0 after a strict exchange, and by counting on otherwise. */
  lemma FirstUnderNewKey(strict: bool, rest: seq<Kind>, epoch: nat, seqn: nat)
    requires seqn <= U32_MAX
    ensures
      var ks := [Switch(strict, strict), Install, Packet] + rest;
      var first := Use(epoch + 1, if strict then 0 else if seqn == 0xFFFF_FFFF then 0 else seqn + 1);
      && |Seals(ks, epoch, seqn)| > 1 && Seals(ks, epoch, seqn)[1] == first
      && |Opens(ks, epoch, seqn)| > 1 && Opens(ks, epoch, seqn)[1] == first
  {
    var ks := [Switch(strict, strict), Install, Packet] + rest;
    var taken := [Install, Packet] + rest;
    var packet := [Packet] + rest;
    assert ks[1..] == taken && taken[1..] == packet && packet[1..] == rest;
    var next := Restart(seqn, strict);
    assert Seals(ks, epoch, seqn) == [Use(epoch, seqn)] + Seals(taken, epoch, next);
    assert Seals(taken, epoch, next) == Seals(packet, epoch + 1, next);
    assert Opens(ks, epoch, seqn) == [Use(epoch, seqn)] + Opens(taken, epoch + 1, next);
    assert Opens(taken, epoch + 1, next) == Opens(packet, epoch + 1, next);
  }

  // --------------------------------------------------------------------- in bytes

  /** The same with payloads: a packet, NEWKEYS with its padding, or an installation. */
  datatype Op = Write(item: Item) | SendNewKeys(pad: Bytes) | TakeKey

  /** The keys of a connection direction, their initial states, and whether the exchange that follows each
      restarts the sequence number. */
  datatype Epochs<!S> = Epochs(key: nat -> Key<S>, state: nat -> S, strict: nat -> bool)

  function ItemOf(op: Op): Item
    requires !op.TakeKey?
  {
    if op.Write? then op.item else Item(NEWKEYS, op.pad)
  }

  function After(op: Op, epoch: nat): nat {
    if op.TakeKey? then epoch + 1 else epoch
  }

  function KindOf<S>(k: Epochs<S>, op: Op, epoch: nat): Kind {
    match op
    case Write(_) => Packet
    case SendNewKeys(_) => Switch(k.strict(epoch), k.strict(epoch))
    case TakeKey => Install
  }

  function KindsOf<S>(k: Epochs<S>, ops: seq<Op>, epoch: nat): seq<Kind> {
    if ops == [] then [] else [KindOf(k, ops[0], epoch)] + KindsOf(k, ops[1..], After(ops[0], epoch))
  }

  /** A packet that can be sealed under the key in use, and is not taken for NEWKEYS. */
  predicate Fits<S>(k: Epochs<S>, op: Op, epoch: nat) {
    !op.TakeKey? ==> Sendable(k.key(epoch).mode, ItemOf(op)) && (op.Write? ==> op.item.payload != NEWKEYS)
  }

  /** Every packet fits the key in use when it is sealed. */
  predicate AllFit<S>(k: Epochs<S>, ops: seq<Op>, epoch: nat) {
    ops != [] ==> Fits(k, ops[0], epoch) && AllFit(k, ops[1..], After(ops[0], epoch))
  }

  /** One packet; the sequence number restarts after NEWKEYS if the exchange is strict. */
  function SealNext<S>(k: Epochs<S>, op: Op, epoch: nat, e: End<S>): Written<S>
    requires !op.TakeKey? && Fits(k, op, epoch)
  {
    var w := SealPacket(k.key(epoch), e, ItemOf(op).payload, ItemOf(op).pad);
    if op.SendNewKeys? && k.strict(epoch) then w.(end := End(w.end.state, 0)) else w
  }

  /** The bytes a writer puts on the wire. */
  function SealOps<S>(k: Epochs<S>, ops: seq<Op>, epoch: nat, e: End<S>): Bytes
    requires AllFit(k, ops, epoch)
  {
    if ops == [] then []
    else if ops[0].TakeKey? then SealOps(k, ops[1..], epoch + 1, End(k.state(epoch + 1), e.seqn))
    else
      var w := SealNext(k, ops[0], epoch, e);
      w.wire + SealOps(k, ops[1..], epoch, w.end)
  }

  /** Where a reader stands: which key, and its state and sequence number. */
  datatype Place<S> = Place(epoch: nat, end: End<S>)

  function AfterReading<S>(k: Epochs<S>, epoch: nat, e: End<S>, payload: Bytes): Place<S> {
    if payload == NEWKEYS then Place(epoch + 1, End(k.state(epoch + 1), if k.strict(epoch) then 0 else e.seqn))
    else Place(epoch, e)
  }

  /** Reading packets, changing keys after each NEWKEYS. */
  function OpenOps<S>(k: Epochs<S>, input: Bytes, count: nat, p: Place<S>): Result<seq<Bytes>, ReadError>
    decreases count
  {
    if count == 0 then Ok([])
    else
      match OpenPacket(k.key(p.epoch), p.end, input)
      case Err(x) => Err(x)
      case Ok(got) =>
        match OpenOps(k, got.rest, count - 1, AfterReading(k, p.epoch, got.end, got.payload))
        case Err(x) => Err(x)
        case Ok(payloads) => Ok([got.payload] + payloads)
  }

  lemma OpenFirst<S(!new)>(k: Epochs<S>, p: Place<S>, item: Item, more: Bytes, payloads: seq<Bytes>)
    requires Lawful(k.key(p.epoch)) && Sendable(k.key(p.epoch).mode, item)
    requires
      var w := SealPacket(k.key(p.epoch), p.end, item.payload, item.pad);
      OpenOps(k, more, |payloads|, AfterReading(k, p.epoch, w.end, item.payload)) == Ok(payloads)
    ensures
      var w := SealPacket(k.key(p.epoch), p.end, item.payload, item.pad);
      OpenOps(k, w.wire + more, |payloads| + 1, p) == Ok([item.payload] + payloads)
  {
    OpenSealed(k.key(p.epoch), p.end, item.payload, item.pad, more);
  }

  /** The payloads on the wire, NEWKEYS included. */
  function Sent(ops: seq<Op>): seq<Bytes> {
    if ops == [] then []
    else if ops[0].TakeKey? then Sent(ops[1..])
    else [ItemOf(ops[0]).payload] + Sent(ops[1..])
  }

  /** The reader's place when the writer stands at `epoch` and `e`: one key ahead while the writer waits. */
  function Reader<S>(k: Epochs<S>, epoch: nat, e: End<S>, waiting: bool): Place<S> {
    if waiting then Place(epoch + 1, End(k.state(epoch + 1), e.seqn)) else Place(epoch, e)
  }

  /** The reader goes where the writer goes. */
  lemma Follows<S>(k: Epochs<S>, op: Op, epoch: nat, e: End<S>)
    requires !op.TakeKey? && Fits(k, op, epoch)
    ensures
      var w := SealPacket(k.key(epoch), e, ItemOf(op).payload, ItemOf(op).pad);
      && SealNext(k, op, epoch, e).wire == w.wire
      && AfterReading(k, epoch, w.end, ItemOf(op).payload) == Reader(k, epoch, SealNext(k, op, epoch, e).end, op.SendNewKeys?)
  {
  }

  /** One packet read, if the rest can be read. */
  lemma ReadsOne<S(!new)>(k: Epochs<S>, op: Op, epoch: nat, e: End<S>, more: Bytes, payloads: seq<Bytes>,
                          wire: Bytes, sent: seq<Bytes>)
    requires !op.TakeKey? && Fits(k, op, epoch) && Lawful(k.key(epoch))
    requires OpenOps(k, more, |payloads|, Reader(k, epoch, SealNext(k, op, epoch, e).end, op.SendNewKeys?)) == Ok(payloads)
    requires wire == SealNext(k, op, epoch, e).wire + more && sent == [ItemOf(op).payload] + payloads
    ensures OpenOps(k, wire, |sent|, Reader(k, epoch, e, false)) == Ok(sent)
  {
    Follows(k, op, epoch, e);
    OpenFirst(k, Place(epoch, e), ItemOf(op), more, payloads);
  }

  /** The reader gets back every payload. */
  ghost predicate Reads<S>(k: Epochs<S>, ops: seq<Op>, epoch: nat, e: End<S>, waiting: bool, rest: Bytes)
    requires AllFit(k, ops, epoch)
  {
    OpenOps(k, SealOps(k, ops, epoch, e) + rest, |Sent(ops)|, Reader(k, epoch, e, waiting)) == Ok(Sent(ops))
  }

  lemma ReadsPacket<S(!new)>(k: Epochs<S>, ops: seq<Op>, epoch: nat, e: End<S>, rest: Bytes)
    requires ops != [] && !ops[0].TakeKey? && AllFit(k, ops, epoch) && Lawful(k.key(epoch))
    requires Reads(k, ops[1..], epoch, SealNext(k, ops[0], epoch, e).end, ops[0].SendNewKeys?, rest)
    ensures Reads(k, ops, epoch, e, false, rest)
  {
    var w := SealNext(k, ops[0], epoch, e);
    var more := SealOps(k, ops[1..], epoch, w.end);
    Assoc(w.wire, more, rest);
    ReadsOne(k, ops[0], epoch, e, more + rest, Sent(ops[1..]), SealOps(k, ops, epoch, e) + rest, Sent(ops));
  }

  /** Across any number of key changes between any ciphers with nothing sealed in between, strict or not,
      the reader gets back every payload. */
  lemma {:induction false} ReadsAcrossSwitches<S(!new)>(
      k: Epochs<S>, ops: seq<Op>, epoch: nat, e: End<S>, waiting: bool, rest: Bytes)
    requires AllFit(k, ops, epoch) && forall n: nat :: Lawful(k.key(n))
    requires Alternates(KindsOf(k, ops, epoch), waiting) && Quiet(KindsOf(k, ops, epoch), waiting)
    ensures Reads(k, ops, epoch, e, waiting, rest)
  {
    if ops != [] {
      var ks := KindsOf(k, ops, epoch);
      assert ks[0] == KindOf(k, ops[0], epoch) && ks[1..] == KindsOf(k, ops[1..], After(ops[0], epoch));
      if ops[0].TakeKey? {
        ReadsAcrossSwitches(k, ops[1..], epoch + 1, End(k.state(epoch + 1), e.seqn), false, rest);
      } else {
        var w := SealNext(k, ops[0], epoch, e);
        ReadsAcrossSwitches(k, ops[1..], epoch, w.end, ops[0].SendNewKeys?, rest);
        ReadsPacket(k, ops, epoch, e, rest);
      }
    }
  }
}
