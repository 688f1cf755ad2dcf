/**
 The sending half of an endpoint: legal packets within the granted window, CLOSE
 at most once and last, and no byte lost or reordered before that.
 */
module Sending {
  import opened Common
  import opened Protocol
  import opened Outbound
  import Inbound
  import opened Channel
  import opened Endpoint

  /** The part of an endpoint its outbound discipline speaks about. */
  datatype Sender = Sender(
    peer: Peer, entry: Option<Params>, rekeying: bool,
    sent: seq<Packet>, rcvd: seq<Packet>, submitted: seq<Tagged>, aborted: bool)

  function SenderOf(e: Endpoint): Sender {
    Sender(e.peer, e.chan.entry, e.chan.rekeying, e.log.sent, e.log.rcvd, e.log.submitted, e.aborted)
  }

  /** Legal packets, never more data than window granted, CLOSE at most once and last. */
  predicate SendBound(s: Sender) {
    && s.peer.maxPacket > 0
    && LegalData(s.sent, s.peer.maxPacket)
    && DataLength(s.sent) <= s.peer.window + Grants(s.rcvd)
    && (s.entry.None? ==> EndsWithClose(s.sent))
    && (s.entry.Some? ==> NoClose(s.sent) && LiveEntry(s, s.entry.value))
  }

  predicate LiveEntry(s: Sender, p: Params) {
    && p.confirmed
    && p.recipientMax == s.peer.maxPacket
    && p.recipientWindow + DataLength(s.sent) == s.peer.window + Grants(s.rcvd)
    && (p.pending != [] && !s.rekeying ==> p.recipientWindow == 0)
    && (p.pending == [] ==> !p.pendingEof && !p.pendingClose)
  }

  /** Every submitted byte was sent in order or is still parked in order; only an abort cuts the tail off. */
  predicate SendOrder(s: Sender) {
    && (s.entry.Some? ==> Payloads(s.sent) + Backlog(s.entry.value.pending) == s.submitted)
    && (s.entry.None? ==> Payloads(s.sent) <= s.submitted && (!s.aborted ==> Payloads(s.sent) == s.submitted))
  }

  predicate SendInv(s: Sender) {
    SendBound(s) && SendOrder(s)
  }

  lemma SendFolds(sent: seq<Packet>, out: seq<Packet>)
    ensures DataLength(sent + out) == DataLength(sent) + DataLength(out)
    ensures Grants(sent + out) == Grants(sent) + Grants(out)
  {
    PayloadsConcat(sent, out);
    GrantsConcat(sent, out);
  }

  lemma LegalConcat(sent: seq<Packet>, out: seq<Packet>, max: nat)
    requires LegalData(sent, max) && LegalData(out, max)
    requires NoClose(sent)
    ensures LegalData(sent + out, max)
    ensures NoClose(out) ==> NoClose(sent + out)
    ensures EndsWithClose(out) ==> EndsWithClose(sent + out)
  {
    if EndsWithClose(out) {
      assert (sent + out)[..|sent + out| - 1] == sent + out[..|out| - 1];
    }
  }

  /** A step of the sending half: `out` is emitted, `more` received, `added` submitted. */
  predicate SendStep(s: Sender, t: Sender, out: seq<Packet>, more: seq<Packet>, added: seq<Tagged>) {
    && t.peer == s.peer
    && t.sent == s.sent + out
    && t.rcvd == s.rcvd + more
    && t.submitted == s.submitted + added
    && LegalData(out, s.peer.maxPacket)
  }

  /** An operation that keeps the entry: the window pays for what was sent. */
  lemma AdvanceBound(s: Sender, t: Sender, out: seq<Packet>, more: seq<Packet>, added: seq<Tagged>)
    requires SendBound(s) && s.entry.Some? && t.entry.Some? && SendStep(s, t, out, more, added)
    requires NoClose(out)
    requires t.entry.value.confirmed && t.entry.value.recipientMax == s.entry.value.recipientMax
    requires t.entry.value.recipientWindow + DataLength(out) == s.entry.value.recipientWindow + Grants(more)
    requires t.entry.value.pending != [] && !t.rekeying ==> t.entry.value.recipientWindow == 0
    requires t.entry.value.pending == [] ==> !t.entry.value.pendingEof && !t.entry.value.pendingClose
    ensures SendBound(t)
  {
    SendFolds(s.sent, out);
    SendFolds(s.rcvd, more);
    LegalConcat(s.sent, out, s.peer.maxPacket);
  }

  /** ... and what it sends and parks is what was parked plus what is new. */
  lemma AdvanceOrder(s: Sender, t: Sender, out: seq<Packet>, more: seq<Packet>, added: seq<Tagged>)
    requires SendOrder(s) && s.entry.Some? && t.entry.Some? && SendStep(s, t, out, more, added)
    requires Payloads(out) + Backlog(t.entry.value.pending) == Backlog(s.entry.value.pending) + added
    ensures SendOrder(t)
  {
    PayloadsConcat(s.sent, out);
    Assoc(Payloads(s.sent), Payloads(out), Backlog(t.entry.value.pending));
    Assoc(Payloads(s.sent), Backlog(s.entry.value.pending), added);
  }

  /** An operation that removes the entry: its last packet is the channel's only CLOSE. */
  lemma FinishBound(s: Sender, t: Sender, out: seq<Packet>, more: seq<Packet>, added: seq<Tagged>)
    requires SendBound(s) && s.entry.Some? && t.entry.None? && SendStep(s, t, out, more, added)
    requires EndsWithClose(out)
    requires DataLength(out) <= s.entry.value.recipientWindow + Grants(more)
    ensures SendBound(t)
  {
    SendFolds(s.sent, out);
    SendFolds(s.rcvd, more);
    LegalConcat(s.sent, out, s.peer.maxPacket);
  }

  lemma FinishOrder(s: Sender, t: Sender, out: seq<Packet>, more: seq<Packet>, added: seq<Tagged>)
    requires SendOrder(s) && s.entry.Some? && t.entry.None? && SendStep(s, t, out, more, added)
    requires Payloads(out) <= Backlog(s.entry.value.pending) + added
    requires !t.aborted ==> Payloads(out) == Backlog(s.entry.value.pending) + added
    ensures SendOrder(t)
  {
    PayloadsConcat(s.sent, out);
    Assoc(Payloads(s.sent), Backlog(s.entry.value.pending), added);
  }

  /** Once the entry is gone nothing more is sent. */
  lemma SendIdle(s: Sender, t: Sender, more: seq<Packet>)
    requires SendInv(s) && s.entry.None?
    requires t == s.(rekeying := t.rekeying, rcvd := s.rcvd + more)
    ensures SendInv(t)
  {
    SendFolds(s.rcvd, more);
  }

  lemma ShapedLegal(out: seq<Packet>, max: nat, data: seq<Packet>, eof: bool, close: bool)
    requires Shaped(out, max, data, eof, close)
    ensures LegalData(out, max)
    ensures !close ==> NoClose(out)
    ensures close ==> EndsWithClose(out)
  {
  }

  lemma NoneAdded<T>(s: seq<T>)
    ensures s + [] == s
  {
  }

  /** Replaying the backlog after the window grew by `Grants(more)`. */
  lemma SendFlush(s: Sender, t: Sender, p: Params, more: seq<Packet>)
    requires SendInv(s) && s.entry.Some?
    requires p == s.entry.value.(recipientWindow := s.entry.value.recipientWindow + Grants(more))
    requires FlushOp(Some(p)).Ok?
    requires t == s.(entry := FlushOp(Some(p)).value.entry, rekeying := t.rekeying,
                     sent := s.sent + FlushOp(Some(p)).value.out, rcvd := s.rcvd + more)
    ensures SendInv(t)
  {
    FlushOpPackets(p);
    FlushOpEntry(p);
    var r := FlushOp(Some(p)).value;
    var done := PendingBytes(p.pending) <= p.recipientWindow;
    ShapedLegal(r.out, p.recipientMax, FlushData(p).value.out, done && p.pendingEof, done && p.pendingClose);
    NoneAdded(s.submitted);
    NoneAdded(Backlog(p.pending));
    if r.entry.Some? {
      AdvanceBound(s, t, r.out, more, []);
      AdvanceOrder(s, t, r.out, more, []);
    } else {
      FinishBound(s, t, r.out, more, []);
      FinishOrder(s, t, r.out, more, []);
    }
  }

  /** A packet other than data or CLOSE. */
  lemma ControlFolds(out: seq<Packet>)
    requires out == [] || (|out| == 1 && !out[0].Data?)
    ensures Payloads(out) == []
    ensures LegalData(out, 0)
    ensures out != [] && out[0].Close? ==> EndsWithClose(out)
    ensures out != [] && !out[0].Adjust? ==> Grants(out) == 0
  {
    if out != [] {
      Singleton(out[0]);
      assert out == [out[0]];
    }
  }

  /** Steps that send at most an EOF or a window grant and leave the backlog alone. */
  lemma SendKeep(s: Sender, t: Sender, out: seq<Packet>, more: seq<Packet>)
    requires SendInv(s) && s.entry.Some? && t.entry.Some?
    requires t.peer == s.peer && t.sent == s.sent + out && t.rcvd == s.rcvd + more && t.submitted == s.submitted
    requires Grants(more) == 0
    requires out == [] || (|out| == 1 && !out[0].Data? && !out[0].Close?)
    requires t.entry.value == s.entry.value.(
      senderWindow := t.entry.value.senderWindow,
      pendingEof := t.entry.value.pendingEof,
      pendingClose := t.entry.value.pendingClose)
    requires !t.rekeying ==> !s.rekeying
    requires t.entry.value.pending == [] ==> !t.entry.value.pendingEof && !t.entry.value.pendingClose
    ensures SendInv(t)
  {
    ControlFolds(out);
    NoneAdded(s.submitted);
    NoneAdded(Backlog(s.entry.value.pending));
    AdvanceBound(s, t, out, more, []);
    AdvanceOrder(s, t, out, more, []);
  }

  /** Steps that close the channel, dropping whatever is still parked. */
  lemma SendClosed(s: Sender, t: Sender, more: seq<Packet>)
    requires SendInv(s) && s.entry.Some? && t.entry.None?
    requires t.peer == s.peer && t.sent == s.sent + [Close] && t.rcvd == s.rcvd + more && t.submitted == s.submitted
    requires !t.aborted ==> Backlog(s.entry.value.pending) == []
    ensures SendInv(t)
  {
    ControlFolds([Close]);
    NoneAdded(s.submitted);
    NoneAdded(Backlog(s.entry.value.pending));
    FinishBound(s, t, [Close], more, []);
    FinishOrder(s, t, [Close], more, []);
  }

  lemma SendDataLive(s: Sender, t: Sender, stream: Stream, bytes: seq<Byte>)
    requires SendInv(s) && s.entry.Some?
    requires DataOp(s.entry, stream, bytes, s.rekeying).Ok?
    requires
      var r := DataOp(s.entry, stream, bytes, s.rekeying).value;
      && (t.entry.Some? ==> t == s.(entry := r.entry, sent := s.sent + r.out,
                                    submitted := s.submitted + Tag(stream, bytes)))
      && (t.entry.None? ==> t == s.(entry := None, sent := s.sent + (r.out + [Close]),
                                    submitted := s.submitted + Tag(stream, bytes), aborted := true))
    ensures SendInv(t)
  {
    var p := s.entry.value;
    DataOpEntry(p, stream, bytes, s.rekeying);
    DataOpPayload(p, stream, bytes, s.rekeying);
    var r := DataOp(s.entry, stream, bytes, s.rekeying).value;
    NoneAdded(s.rcvd);
    if t.entry.Some? {
      AdvanceBound(s, t, r.out, [], Tag(stream, bytes));
      AdvanceOrder(s, t, r.out, [], Tag(stream, bytes));
    } else {
      ThenClose(r.out, s.peer.maxPacket);
      FinishBound(s, t, r.out + [Close], [], Tag(stream, bytes));
      FinishOrder(s, t, r.out + [Close], [], Tag(stream, bytes));
    }
  }

  /** Data packets followed by CLOSE. */
  lemma ThenClose(out: seq<Packet>, max: nat)
    requires WellSized(out, max)
    ensures LegalData(out + [Close], max) && EndsWithClose(out + [Close]) && Payloads(out + [Close]) == Payloads(out)
  {
    ControlFolds([Close]);
    PayloadsConcat(out, [Close]);
    NoneAdded(Payloads(out));
    LegalConcat(out, [Close], max);
  }

  lemma SendData(e: Endpoint, stream: Stream, bytes: seq<Byte>)
    requires SendInv(SenderOf(e))
    ensures SubmitData(e.chan, stream, bytes).Ok?
    ensures SendInv(SenderOf(Record(e, AppData(stream, bytes), SubmitData(e.chan, stream, bytes).value)))
  {
    var s := SenderOf(e);
    if e.chan.entry.None? {
      NoneAdded(e.log.rcvd);
      NoneAdded(e.log.sent);
      SendIdle(s, SenderOf(Record(e, AppData(stream, bytes), SubmitData(e.chan, stream, bytes).value)), []);
    } else {
      DataOpEntry(e.chan.entry.value, stream, bytes, e.chan.rekeying);
      SendDataLive(s, SenderOf(Record(e, AppData(stream, bytes), SubmitData(e.chan, stream, bytes).value)), stream, bytes);
    }
  }

  /** Effects that leave the outbound backlog alone: keep the entry and send at most one EOF or
      grant, or close the channel, or (with no entry) send nothing. */
  predicate Plain(ch: Chan, f: Effect) {
    && f.chan.config == ch.config
    && (ch.rekeying ==> f.chan.rekeying)
    && match ch.entry
       case None => f.chan.entry.None? && f.out == []
       case Some(p) =>
         match f.chan.entry
         case None => f.out == [Close]
         case Some(d) =>
           && (f.out == [] || (|f.out| == 1 && !f.out[0].Data? && !f.out[0].Close?))
           && d == p.(senderWindow := d.senderWindow, pendingEof := d.pendingEof, pendingClose := d.pendingClose)
           && (d.pending == [] ==> d.pendingEof == p.pendingEof && d.pendingClose == p.pendingClose)
  }

  lemma SendPlain(e: Endpoint, ev: Event, f: Effect)
    requires SendInv(SenderOf(e))
    requires Enabled(e.chan, ev) && !ev.AppData? && (ev.Receive? ==> !ev.packet.Adjust?)
    requires Plain(e.chan, f)
    requires !ev.Receive? && e.chan.entry.Some? && f.chan.entry.None? ==> e.chan.entry.value.pending == []
    ensures SendInv(SenderOf(Record(e, ev, f)))
  {
    var s, t := SenderOf(e), SenderOf(Record(e, ev, f));
    var more := if ev.Receive? then [ev.packet] else [];
    if ev.Receive? {
      Singleton(ev.packet);
    } else {
      NoneAdded(e.log.rcvd);
    }
    if s.entry.None? {
      NoneAdded(e.log.sent);
      SendIdle(s, t, more);
    } else if t.entry.None? {
      SendClosed(s, t, more);
    } else {
      SendKeep(s, t, f.out, more);
    }
  }

  lemma PlainReceiveData(ch: Chan, stream: Stream, bytes: seq<Byte>)
    ensures Plain(ch, ReceiveData(ch, stream, bytes))
  {
    var f := ReceiveData(ch, stream, bytes);
    match Inbound.Deliver(ch.app, ch.inbound, ch.config.maxPendingInbound, Data(stream, bytes)).outcome
    case Queued => assert f.out == [];
    case Overflow => assert f.chan.entry.None?;
    case _ => assert f.chan.rekeying == ch.rekeying;
  }

  lemma PlainReceiveClose(ch: Chan)
    ensures Plain(ch, ReceiveClose(ch)) || (ch.entry.Some? && !ch.entry.value.confirmed)
  {
  }

  lemma PlainPump(ch: Chan, k: nat)
    requires k < |ch.reserves|
    requires ch.inbound.Some? && ch.inbound.value.closeQueued ==> ch.entry.None?
    requires ch.inbound.Some? && (exists i :: 0 <= i < |ch.inbound.value.items| && ch.inbound.value.items[i].Close?)
             ==> ch.entry.None?
    ensures Plain(ch, Pump(ch, k))
  {
  }
}
