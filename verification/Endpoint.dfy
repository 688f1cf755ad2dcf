/**
 An endpoint with its history, and what every step keeps against any peer that
 respects the channel rules. The sending and the receiving half are stated
 separately; both count with the packets sent and received so far.
 */
module Endpoint {
  import opened Common
  import opened Protocol
  import opened Outbound
  import Inbound
  import opened Channel

  /** What the peer advertised when the channel was opened. */
  datatype Peer = Peer(window: nat, maxPacket: nat)

  /**
   Everything that happened so far on this endpoint. `cut` is set once inbound
   delivery ended before the peer's CLOSE was handed over; `stalled` once the
   reader was dropped while items were queued.
   */
  datatype Log = Log(
    sent: seq<Packet>,
    rcvd: seq<Packet>,
    submitted: seq<Tagged>,
    delivered: seq<Packet>,
    read: seq<Packet>,
    cut: bool,
    stalled: bool)

  /** `aborted` is set once the channel was closed here with data or an EOF still deferred. */
  datatype Endpoint = Endpoint(peer: Peer, chan: Chan, log: Log, aborted: bool)

  /** A step that removes the channel entry without sending what is parked: the peer's CLOSE, or our own cap. */
  predicate Discards(e: Endpoint, ev: Event, f: Effect) {
    && e.chan.entry.Some?
    && f.chan.entry.None?
    && (|| ev.AppData?
        || (ev.Receive? && !ev.packet.Adjust?
            && (PendingBytes(e.chan.entry.value.pending) > 0 || e.chan.entry.value.pendingEof)))
  }

  predicate NoClose(ps: seq<Packet>) {
    forall i :: 0 <= i < |ps| ==> !ps[i].Close?
  }

  predicate LegalData(ps: seq<Packet>, max: nat) {
    forall i :: 0 <= i < |ps| && ps[i].Data? ==> 1 <= |ps[i].bytes| <= max
  }

  /** At most one CLOSE, and nothing after it. */
  predicate EndsWithClose(ps: seq<Packet>) {
    |ps| > 0 && ps[|ps| - 1].Close? && NoClose(ps[..|ps| - 1])
  }

  /** Record a step with effect `f` in the history. */
  function Record(e: Endpoint, ev: Event, f: Effect): Endpoint
    requires Enabled(e.chan, ev)
  {
    Endpoint(e.peer, f.chan, Log(
      e.log.sent + f.out,
      if ev.Receive? then e.log.rcvd + [ev.packet] else e.log.rcvd,
      if ev.AppData? && e.chan.entry.Some? then e.log.submitted + Tag(ev.stream, ev.bytes) else e.log.submitted,
      e.log.delivered + f.handed,
      if ev.AppRead? && e.chan.app.buffer[0].Item? then e.log.read + [e.chan.app.buffer[0].packet] else e.log.read,
      e.log.cut || ev.AppDropReader? || (e.chan.app.present && !f.chan.app.present && f.handed != [Close]),
      e.log.stalled || (ev.AppDropReader? && e.chan.inbound.Some?)),
      e.aborted || Discards(e, ev, f))
  }

  /** The rules the peer's next packet must respect: nothing after CLOSE, data within the window
      granted so far, and no grant that takes our send window past 32 bits. */
  predicate Compliant(e: Endpoint, p: Packet) {
    && NoClose(e.log.rcvd)
    && (p.Data? ==> DataLength(e.log.rcvd) + |p.bytes| <= e.chan.config.window + Grants(e.log.sent))
    && (p.Adjust? ==> e.peer.window + Grants(e.log.rcvd) + p.amount <= DataLength(e.log.sent) + U32_MAX)
  }

  predicate Allowed(e: Endpoint, ev: Event) {
    && Enabled(e.chan, ev)
    && (ev.Receive? ==> Compliant(e, ev.packet))
  }
}
