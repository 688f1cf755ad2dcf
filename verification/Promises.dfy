/**
 What an application asks of a channel does happen: a close that was asked for is
 sent and releases the channel, an end of file is observed behind the bytes it was
 asked behind, and window is granted in full, exactly when half of it is used up.
 */
module Promises {
  import opened Common
  import opened Protocol
  import Outbound
  import opened Inbound
  import opened Channel
  import opened Endpoint
  import opened Sending
  import opened Receiving
  import opened Discipline
  import opened FlowControl
  import Liveness

  // ------------------------------------------------------------------- window

  /** Bytes that arrive with a step. */
  function Arriving(ev: Event): nat {
    if ev.Receive? && ev.packet.Data? then |ev.packet.bytes| else 0
  }

  /** Data goes to the application, or past it when nobody reads, but not into the queue. */
  predicate HandsData(ch: Chan, ev: Event, f: Effect) {
    match ev
    case Receive(Data(_, _), _) => f.chan.inbound == ch.inbound
    case Resolve(_) => f.handed != [] && f.handed[0].Data?
    case _ => false
  }

  /** Half of the window that undelivered bytes leave is used up. */
  predicate RunsLow(e: Endpoint, ev: Event, f: Effect)
    requires e.chan.entry.Some?
  {
    e.chan.entry.value.senderWindow - Arriving(ev) < (e.chan.config.window - PendingBytes(f.chan.inbound)) / 2
  }

  /** A step grants exactly when it hands data over and the window runs low, and then up to the window
      configured, undelivered bytes charged. */
  predicate GrantsInFull(e: Endpoint, ev: Event, f: Effect) {
    && (Grants(f.out) > 0 <==> e.chan.entry.Some? && HandsData(e.chan, ev, f) && RunsLow(e, ev, f))
    && (Grants(f.out) > 0 ==>
          && f.chan.entry.Some?
          && f.chan.entry.value.senderWindow + PendingBytes(f.chan.inbound) == e.chan.config.window
          && e.chan.entry.value.senderWindow - Arriving(ev) + Grants(f.out) == f.chan.entry.value.senderWindow)
  }

  lemma GrantRefills(p: Outbound.Params, window: nat, pending: nat)
    requires p.senderWindow + pending <= window <= U32_MAX
    ensures
      var g := Outbound.Grant(Some(p), window, Min(pending, U32_MAX));
      && g.entry.Some?
      && (Grants(g.out) > 0 <==> p.senderWindow < (window - pending) / 2)
      && (Grants(g.out) > 0 ==> g.entry.value.senderWindow == p.senderWindow + Grants(g.out) == window - pending)
  {
    Singleton(Adjust(window - pending - p.senderWindow));
  }

  lemma DataGrants(e: Endpoint, stream: Stream, bytes: seq<Byte>, notify: bool)
    requires EndpointInv(e) && Compliant(e, Data(stream, bytes))
    ensures GrantsInFull(e, Receive(Data(stream, bytes), notify), ReceiveData(e.chan, stream, bytes))
  {
    var f := ReceiveData(e.chan, stream, bytes);
    NeverOverflows(e, Data(stream, bytes));
    ReceiveDataShape(e.chan, stream, bytes);
    if Queues(e.chan, Data(stream, bytes)) {
      QueuedGrants(e, Receive(Data(stream, bytes), notify), f);
    } else {
      DirectGrants(e, Receive(Data(stream, bytes), notify), f);
    }
  }

  lemma QueuedGrants(e: Endpoint, ev: Event, f: Effect)
    requires ev.Receive? && ev.packet.Data?
    requires f == Effect(Waiting(e.chan, Charged(e.chan.entry, |ev.packet.bytes|), ev.packet), [], [], false)
    ensures GrantsInFull(e, ev, f)
  {
    assert Items(f.chan.inbound) == Items(e.chan.inbound) + [ev.packet];
  }

  lemma DirectGrants(e: Endpoint, ev: Event, f: Effect)
    requires RecvInv(e) && ev.Receive? && ev.packet.Data? && Compliant(e, ev.packet)
    requires
      var g := Outbound.Grant(Charged(e.chan.entry, |ev.packet.bytes|), e.chan.config.window,
                              Min(PendingBytes(e.chan.inbound), U32_MAX));
      f == Effect(e.chan.(entry := g.entry, app := f.chan.app), g.out, f.handed, false)
    ensures GrantsInFull(e, ev, f)
  {
    if e.chan.entry.Some? {
      ConsumeFits(e.chan.entry.value, |ev.packet.bytes|);
      GrantRefills(Charged(e.chan.entry, |ev.packet.bytes|).value, e.chan.config.window, PendingBytes(e.chan.inbound));
    }
  }

  lemma PumpGrants(e: Endpoint)
    requires EndpointInv(e) && Enabled(e.chan, Resolve(0))
    ensures GrantsInFull(e, Resolve(0), Pump(e.chan, 0))
  {
    var ch := e.chan;
    if ch.inbound.Some? && ch.app.readerOpen {
      var q := ch.inbound.value;
      if q.items[0].Close? {
        CloseIsLast(q, e.log.rcvd);
        PumpClose(ch);
      } else {
        PumpShape(ch);
        PoppedFolds(q.items);
        if ch.entry.Some? {
          GrantRefills(ch.entry.value, ch.config.window, PoppedBytes(q));
        }
      }
    }
  }

  lemma GrantsExact(e: Endpoint, ev: Event)
    requires EndpointInv(e) && Allowed(e, ev)
    ensures Step(e.chan, ev).Ok? && GrantsInFull(e, ev, Step(e.chan, ev).value)
  {
    StepKeeps(e, ev);
    match ev
    case Receive(Data(stream, bytes), notify) => DataGrants(e, stream, bytes, notify);
    case Resolve(k) =>
      assert k == 0;
      PumpGrants(e);
    case _ => OthersGrantNothing(e, ev);
  }

  lemma OthersGrantNothing(e: Endpoint, ev: Event)
    requires EndpointInv(e) && Allowed(e, ev) && Step(e.chan, ev).Ok?
    requires !ev.Resolve? && !(ev.Receive? && ev.packet.Data?)
    ensures Grants(Step(e.chan, ev).value.out) == 0
  {
    match ev
    case AppData(stream, bytes) =>
      if e.chan.entry.Some? {
        SubmitShape(e.chan, stream, bytes, SubmitData(e.chan, stream, bytes).value);
      }
    case AppEof => ControlFolds(SubmitEof(e.chan).out);
    case AppClose => ControlFolds(SubmitClose(e.chan).out);
    case Receive(Close, _) => ControlFolds(ReceiveClose(e.chan).out);
    case Receive(Adjust(amount), notify) =>
      if e.chan.entry.Some? {
        ReceiveAdjustShape(e, amount, notify);
        FlushFrame(Widened(e, amount));
      }
    case RekeyEnd =>
      if e.chan.entry.Some? {
        FlushFrame(e.chan.entry.value);
      }
    case _ =>
  }

  /** A window adjustment tells the application the window that is left after the replay, if it can. */
  lemma AdjustReports(e: Endpoint, amount: nat, notify: bool)
    requires EndpointInv(e) && Compliant(e, Adjust(amount)) && e.chan.entry.Some?
    ensures ReceiveAdjust(e.chan, amount, notify).Ok?
    ensures
      var f := ReceiveAdjust(e.chan, amount, notify).value;
      var left := e.chan.entry.value.recipientWindow + amount - DataLength(f.out);
      && 0 <= left && (f.chan.entry.Some? ==> f.chan.entry.value.recipientWindow == left)
      && f.chan.app == if notify && e.chan.app.HasRoom() then e.chan.app.Push(WindowAdjusted(left)) else e.chan.app
  {
    AdjustExact(e, amount);
    FlushLeaves(Widened(e, amount));
    Reported(e.chan, amount, notify);
  }

  lemma FlushLeaves(p: Outbound.Params)
    requires p.recipientMax > 0
    ensures Outbound.FlushOp(Some(p)).Ok?
    ensures
      var r := Outbound.FlushOp(Some(p)).value;
      && DataLength(r.out) <= p.recipientWindow
      && (r.entry.Some? ==> r.entry.value.recipientWindow == p.recipientWindow - DataLength(r.out))
  {
    Outbound.FlushOpEntry(p);
  }

  lemma Reported(ch: Chan, amount: nat, notify: bool)
    requires ch.entry.Some? && Outbound.AdjustOp(ch.entry, amount).Ok?
    ensures ReceiveAdjust(ch, amount, notify).Ok?
    ensures
      var f, r := ReceiveAdjust(ch, amount, notify).value, Outbound.AdjustOp(ch.entry, amount).value;
      var size := SaturatingSub(SaturatingAdd(ch.entry.value.recipientWindow, amount), DataLength(r.out));
      && f.chan.entry == r.entry && f.out == r.out
      && f.chan.app == if notify && ch.app.HasRoom() then ch.app.Push(WindowAdjusted(size)) else ch.app
  {
  }

  // --------------------------------------------------------------------- caps

  /** How many bytes a submission sends at once. */
  function SentAtOnce(p: Outbound.Params, bytes: seq<Byte>, rekeying: bool): nat {
    if p.pending != [] || rekeying then 0 else Min(|bytes|, p.recipientWindow)
  }

  lemma DataParks(p: Outbound.Params, stream: Stream, bytes: seq<Byte>, rekeying: bool)
    requires p.recipientMax > 0 && p.confirmed
    ensures Outbound.DataOp(Some(p), stream, bytes, rekeying).Ok?
    ensures
      var r := Outbound.DataOp(Some(p), stream, bytes, rekeying).value;
      && r.entry.Some? && DataLength(r.out) == SentAtOnce(p, bytes, rekeying)
      && Outbound.PendingBytes(r.entry.value.pending) == Outbound.PendingBytes(p.pending) + |bytes| - DataLength(r.out)
  {
    Outbound.DataOpEntry(p, stream, bytes, rekeying);
    Outbound.DataOpPayload(p, stream, bytes, rekeying);
    if p.pending == [] && !rekeying {
      Outbound.DataNoQueueWindow(p, bytes, stream, 0);
      Outbound.DataNoQueuePackets(p, bytes, stream, 0);
    }
  }

  /** A submission closes the channel exactly when more bytes would be parked than the cap allows. */
  lemma CapExact(e: Endpoint, stream: Stream, bytes: seq<Byte>)
    requires EndpointInv(e) && e.chan.entry.Some?
    ensures SubmitData(e.chan, stream, bytes).Ok?
    ensures
      var f := SubmitData(e.chan, stream, bytes).value;
      var sent := SentAtOnce(e.chan.entry.value, bytes, e.chan.rekeying);
      var parked := Outbound.PendingBytes(e.chan.entry.value.pending) + |bytes| - sent;
      && (f.chan.entry.None? <==> parked > e.chan.config.maxPendingOutbound)
      && (f.chan.entry.Some? ==>
            Outbound.PendingBytes(f.chan.entry.value.pending) == parked && DataLength(f.out) == sent)
      && (f.chan.entry.None? ==> f.failAcks && f.chan.inbound.None? && !f.chan.app.present)
  {
    DataParks(e.chan.entry.value, stream, bytes, e.chan.rekeying);
  }

  /** Whoever sends, an item that has to wait is refused exactly when the queue would outgrow the cap. */
  lemma OverflowIff(ch: Chan, item: Packet)
    requires Reserved(ch) && GoodItem(item) && !Duplicate(ch, item)
    ensures
      Deliver(ch.app, ch.inbound, ch.config.maxPendingInbound, item).outcome.Overflow? <==>
        && (ch.inbound.Some? || (ch.app.present && ch.app.readerOpen && |ch.app.buffer| >= ch.app.capacity))
        && PendingBytes(ch.inbound) + ByteLen(item) > ch.config.maxPendingInbound
  {
  }

  /** With room in the buffer and nothing waiting, an item is handed over at once. */
  lemma HandedAtOnce(ch: Chan, item: Packet)
    requires GoodItem(item) && ch.inbound.None? && ch.app.HasRoom()
    ensures
      var d := Deliver(ch.app, ch.inbound, ch.config.maxPendingInbound, item);
      d.outcome.Delivered? && d.app == ch.app.Push(Item(item)) && d.inbound.None? && !d.needsReserve
  {
  }

  /** A peer that sends more than that loses the channel at once. */
  lemma OverflowCloses(ch: Chan, stream: Stream, bytes: seq<Byte>)
    requires ch.entry.Some?
    requires Deliver(ch.app, ch.inbound, ch.config.maxPendingInbound, Data(stream, bytes)).outcome.Overflow?
    ensures
      var f := ReceiveData(ch, stream, bytes);
      && Liveness.Gone(f.chan) && f.out == [Close] && f.handed == [] && f.failAcks
  {
  }

  /** So no queue ever outgrows the cap, whatever the peer sends and whether or not it keeps to its window. */
  lemma StepCapped(ch: Chan, ev: Event)
    requires Enabled(ch, ev) && Step(ch, ev).Ok? && PendingBytes(ch.inbound) <= ch.config.maxPendingInbound
    ensures
      var d := Step(ch, ev).value.chan;
      d.config == ch.config && PendingBytes(d.inbound) <= d.config.maxPendingInbound
  {
    match ev
    case Receive(Data(stream, bytes), _) => DataCapped(ch, stream, bytes);
    case Receive(Close, _) => CloseCapped(ch);
    case Resolve(k) => PumpCapped(ch, k);
    case _ =>
  }

  lemma DataCapped(ch: Chan, stream: Stream, bytes: seq<Byte>)
    requires PendingBytes(ch.inbound) <= ch.config.maxPendingInbound
    ensures PendingBytes(ReceiveData(ch, stream, bytes).chan.inbound) <= ch.config.maxPendingInbound
    ensures ReceiveData(ch, stream, bytes).chan.config == ch.config
  {
  }

  lemma CloseCapped(ch: Chan)
    requires PendingBytes(ch.inbound) <= ch.config.maxPendingInbound
    ensures PendingBytes(ReceiveClose(ch).chan.inbound) <= ch.config.maxPendingInbound
    ensures ReceiveClose(ch).chan.config == ch.config
  {
  }

  lemma PumpCapped(ch: Chan, k: nat)
    requires k < |ch.reserves| && PendingBytes(ch.inbound) <= ch.config.maxPendingInbound
    ensures PendingBytes(Pump(ch, k).chan.inbound) <= ch.config.maxPendingInbound
    ensures Pump(ch, k).chan.config == ch.config
  {
  }

  /** The channel after any events at all. */
  predicate ChanRuns(ch: Chan, evs: seq<Event>, d: Chan)
    decreases |evs|
  {
    if evs == [] then ch == d
    else Enabled(ch, evs[0]) && Step(ch, evs[0]).Ok? && ChanRuns(Step(ch, evs[0]).value.chan, evs[1..], d)
  }

  lemma {:induction false} QueueCapped(ch: Chan, evs: seq<Event>, d: Chan)
    requires ChanRuns(ch, evs, d) && PendingBytes(ch.inbound) <= ch.config.maxPendingInbound
    ensures PendingBytes(d.inbound) <= d.config.maxPendingInbound
    decreases |evs|
  {
    if evs != [] {
      StepCapped(ch, evs[0]);
      QueueCapped(Step(ch, evs[0]).value.chan, evs[1..], d);
    }
  }

  // -------------------------------------------------------------------- close

  /** A close was asked for: it is sent, or kept for the end of the backlog. */
  predicate Closing(ch: Chan) {
    ch.entry.Some? ==> ch.entry.value.pendingClose
  }

  /** `close` on an open channel: CLOSE goes out at once and the entry with it when nothing is parked; otherwise
      it waits, and nothing else changes. The application side is released once nobody reads. */
  lemma CloseAsked(e: Endpoint)
    requires EndpointInv(e) && e.chan.entry.Some?
    ensures
      var f := SubmitClose(e.chan);
      && Closing(f.chan)
      && (if e.chan.entry.value.pending == [] then
            && f.chan.entry.None? && EndsWithClose(e.log.sent + f.out) && f.out == [Close]
            && f.chan.app.present == (e.chan.app.present && e.chan.app.readerOpen)
          else f == Effect(e.chan.(entry := Some(e.chan.entry.value.(pendingClose := true))), [], [], false))
  {
    assert (e.log.sent + [Close])[..|e.log.sent|] == e.log.sent;
  }

  /** No step forgets it: the entry goes on waiting, or is gone with CLOSE the last packet sent. */
  lemma ClosingStays(e: Endpoint, ev: Event)
    requires EndpointInv(e) && Allowed(e, ev) && Closing(e.chan)
    ensures Step(e.chan, ev).Ok? && Closing(Apply(e, ev).chan)
    ensures Apply(e, ev).chan.entry.None? ==> EndsWithClose(Apply(e, ev).log.sent)
  {
    StepKeeps(e, ev);
    match ev
    case AppData(stream, bytes) =>
      if e.chan.entry.Some? {
        Outbound.DataOpEntry(e.chan.entry.value, stream, bytes, e.chan.rekeying);
      }
    case Receive(Data(stream, bytes), _) => DataKeepsClosing(e.chan, stream, bytes);
    case Receive(Close, _) => CloseKeepsClosing(e.chan);
    case Receive(Adjust(amount), notify) =>
      if e.chan.entry.Some? {
        ReceiveAdjustShape(e, amount, notify);
        Outbound.FlushOpEntry(Widened(e, amount));
      }
    case Resolve(k) => PumpKeepsClosing(e.chan, k);
    case RekeyEnd =>
      if e.chan.entry.Some? {
        Outbound.FlushOpEntry(e.chan.entry.value);
      }
    case _ =>
  }

  lemma DataKeepsClosing(ch: Chan, stream: Stream, bytes: seq<Byte>)
    requires Closing(ch)
    ensures Closing(ReceiveData(ch, stream, bytes).chan)
  {
  }

  lemma CloseKeepsClosing(ch: Chan)
    requires Closing(ch)
    ensures Closing(ReceiveClose(ch).chan)
  {
  }

  lemma PumpKeepsClosing(ch: Chan, k: nat)
    requires Closing(ch) && k < |ch.reserves|
    ensures Closing(Pump(ch, k).chan)
  {
  }

  /** The peer's CLOSE on an open channel is answered with ours, and the entry and what is parked are gone;
      before the channel is confirmed, or once it is unknown, it is ignored. */
  lemma CloseAnswered(ch: Chan)
    ensures ch.entry.Some? && ch.entry.value.confirmed ==>
      ReceiveClose(ch).chan.entry.None? && ReceiveClose(ch).out == [Close] && ReceiveClose(ch).failAcks
    ensures (if ch.entry.Some? then !ch.entry.value.confirmed else !ch.app.present) ==>
      ReceiveClose(ch) == Effect(ch, [], [], false)
  {
  }

  const CLOSE := Turn(true, Own(AppClose))
  const EOF := Turn(true, Own(AppEof))

  lemma TurnCloses(s: Sys, t: Turn)
    requires SysInv(s) && Ready(s, t) && (Closing(s.a.chan) || t == CLOSE)
    ensures Next(s, t).Ok? && SysInv(Next(s, t).value) && Closing(Next(s, t).value.a.chan)
  {
    TurnKeeps(s, t);
    if t.left {
      if Closing(s.a.chan) {
        if t.move.Take? {
          PeerIsCompliant(s);
        }
        ClosingStays(s.a, LeftEvent(s, t.move));
      } else {
        CloseAsked(s.a);
      }
    }
  }

  lemma {:induction false} RunCloses(s: Sys, ts: seq<Turn>, t: Sys)
    requires SysInv(s) && Runs(s, ts, t) && (Closing(s.a.chan) || CLOSE in ts)
    ensures Closing(t.a.chan)
    decreases |ts|
  {
    if ts != [] {
      TurnKeeps(s, ts[0]);
      if Closing(s.a.chan) || ts[0] == CLOSE {
        TurnCloses(s, ts[0]);
      }
      RunCloses(Next(s, ts[0]).value, ts[1..], t);
    }
  }

  /**
   A close that was asked for happens: whatever else the schedule does, once nothing
   is left to serve the channel is gone from every map on both sides, provided the
   window is at least two bytes and the reader was not dropped in front of queued
   items. A reader that stayed has read CLOSE last, and all bytes unless they were
   discarded.
   */
  lemma CloseHappens(start: Sys, ts: seq<Turn>, s: Sys)
    requires Initial(start) && Runs(start, ts, s) && CLOSE in ts && Liveness.Served(s)
    requires s.b.chan.config.window >= 2 && !s.b.log.stalled
    ensures Liveness.Gone(s.a.chan) && Liveness.Gone(s.b.chan) && EndsWithClose(s.a.log.sent)
    ensures !s.b.log.cut ==> var ms := Marks(s.b.log.read, false); ms != [] && ms[|ms| - 1] == Closed
    ensures !s.b.log.cut && !s.a.aborted ==> Payloads(s.b.log.read) == s.a.log.submitted
  {
    InitialInv(start);
    RunCloses(start, ts, s);
    assert Reachable(s);
    ReachableInv(s);
    Liveness.ServedIsIdle(s);
    if s.a.chan.entry.Some? {
      IdleMeansSent(s);
      assert false;
    }
    Liveness.ClosedIsReleased(s);
    if !s.b.log.cut {
      ReadToTheEnd(s);
      CloseMarkLast(s.a.log.sent);
      if !s.a.aborted {
        ClosedMeansDelivered(s);
      }
    }
  }

  /** What the reader has read of a served system is what was sent. */
  lemma ReadToTheEnd(s: Sys)
    requires Reachable(s) && Liveness.Served(s) && !s.b.log.cut
    ensures Marks(s.b.log.read, false) == Marks(s.a.log.sent, false)
    ensures Eofs(s.a.log.sent) <= 1 ==> Marks(s.b.log.read, true) == Marks(s.a.log.sent, true)
  {
    ReachableInv(s);
    Liveness.ServedIsIdle(s);
    EndToEndControls(s);
    PipelineDrained(s);
  }

  // -------------------------------------------------------------- end of file

  /** An EOF stands behind at least `n` bytes. */
  ghost predicate EofBehind(ps: seq<Packet>, n: nat) {
    exists i :: 0 <= i < |ps| && ps[i].Eof? && DataLength(ps[..i]) >= n
  }

  /** An EOF asked for behind `n` bytes is owed or sent, behind at least as many. */
  ghost predicate Ending(e: Endpoint, n: nat) {
    && n <= |e.log.submitted|
    && ((e.chan.entry.Some? && e.chan.entry.value.pendingEof) || EofBehind(e.log.sent, n))
  }

  lemma BehindMore(ps: seq<Packet>, more: seq<Packet>, n: nat)
    requires EofBehind(ps, n)
    ensures EofBehind(ps + more, n)
  {
    var i :| 0 <= i < |ps| && ps[i].Eof? && DataLength(ps[..i]) >= n;
    assert (ps + more)[..i] == ps[..i];
    assert (ps + more)[i].Eof?;
  }

  /** The EOF of one operation comes behind all its data. */
  lemma {:induction false} EofLast(sent: seq<Packet>, out: seq<Packet>, max: nat, data: seq<Packet>, close: bool)
    requires Outbound.Shaped(out, max, data, true, close)
    ensures EofBehind(sent + out, DataLength(sent + out))
  {
    Outbound.ShapedFolds(out, max, data, true, close);
    var i := |sent| + |data|;
    assert (sent + out)[..i] == sent + data && (sent + out)[i] == Eof;
    PayloadsConcat(sent, data);
    PayloadsConcat(sent, out);
  }

  lemma FlushEnds(e: Endpoint, p: Outbound.Params, n: nat)
    requires SendInv(SenderOf(e)) && e.chan.entry.Some? && p.recipientMax > 0
    requires p.pending == e.chan.entry.value.pending && p.pendingEof && n <= |e.log.submitted|
    ensures Outbound.FlushOp(Some(p)).Ok?
    ensures
      var r := Outbound.FlushOp(Some(p)).value;
      (r.entry.Some? && r.entry.value.pendingEof) || EofBehind(e.log.sent + r.out, n)
  {
    Outbound.FlushOpEntry(p);
    Outbound.FlushOpPackets(p);
    var done := Outbound.PendingBytes(p.pending) <= p.recipientWindow;
    if done {
      var r := Outbound.FlushOp(Some(p)).value;
      EofLast(e.log.sent, r.out, p.recipientMax, Outbound.FlushData(p).value.out, p.pendingClose);
      PayloadsConcat(e.log.sent, r.out);
      if r.entry.Some? {
        assert Outbound.Backlog(r.entry.value.pending) == [];
      }
      assert EofBehind(e.log.sent + r.out, n);
    }
  }

  /** `eof` asked for on an open channel comes behind everything submitted so far. */
  lemma EofAsked(e: Endpoint)
    requires EndpointInv(e) && e.chan.entry.Some?
    ensures Ending(Apply(e, AppEof), |e.log.submitted|)
  {
    var out := SubmitEof(e.chan).out;
    if e.chan.entry.value.pending == [] {
      assert [] + [Eof] + [] == [Eof];
      EofLast(e.log.sent, [Eof], 1, [], false);
      ControlFolds([Eof]);
      PayloadsConcat(e.log.sent, [Eof]);
    }
  }

  /** Whatever happens next it stays so, unless what is parked is discarded. */
  lemma EndingStays(e: Endpoint, ev: Event, n: nat)
    requires EndpointInv(e) && Allowed(e, ev) && Ending(e, n)
    ensures Step(e.chan, ev).Ok? && (Apply(e, ev).aborted || Ending(Apply(e, ev), n))
  {
    StepKeeps(e, ev);
    var f := Step(e.chan, ev).value;
    if EofBehind(e.log.sent, n) {
      BehindMore(e.log.sent, f.out, n);
    } else if ev.RekeyEnd? {
      FlushEnds(e, e.chan.entry.value, n);
    } else if ev.Receive? && ev.packet.Adjust? {
      ReceiveAdjustShape(e, ev.packet.amount, ev.notify);
      FlushEnds(e, Widened(e, ev.packet.amount), n);
    } else {
      EofPaid(e, ev);
      if !Discards(e, ev, f) {
        OwedStays(e, ev);
      }
    }
  }

  lemma OwedStays(e: Endpoint, ev: Event)
    requires EndpointInv(e) && Allowed(e, ev) && Step(e.chan, ev).Ok? && !Discards(e, ev, Step(e.chan, ev).value)
    requires !ev.RekeyEnd? && !(ev.Receive? && ev.packet.Adjust?) && e.chan.entry.Some? && e.chan.entry.value.pendingEof
    ensures Step(e.chan, ev).value.chan.entry.Some? && Step(e.chan, ev).value.chan.entry.value.pendingEof
  {
    EofPaid(e, ev);
    if ev.AppData? {
      SubmitDataNoEof(e, ev.stream, ev.bytes);
    } else if !ev.AppEof? {
      OthersSendNoEof(e, ev);
    }
  }

  /** How many bytes were submitted when EOF was first asked for on an open channel. */
  function AskedBehind(s: Sys, ts: seq<Turn>, t: Sys): Option<nat>
    requires Runs(s, ts, t)
    decreases |ts|
  {
    if ts == [] then None
    else if ts[0] == EOF && s.a.chan.entry.Some? then Some(|s.a.log.submitted|)
    else AskedBehind(Next(s, ts[0]).value, ts[1..], t)
  }

  lemma TurnEnds(s: Sys, t: Turn, n: nat)
    requires SysInv(s) && Ready(s, t)
    requires Ending(s.a, n) || (t == EOF && s.a.chan.entry.Some? && n == |s.a.log.submitted|)
    ensures Next(s, t).Ok? && SysInv(Next(s, t).value)
    ensures Next(s, t).value.a.aborted || Ending(Next(s, t).value.a, n)
  {
    TurnKeeps(s, t);
    if t.left {
      if t.move.Take? {
        PeerIsCompliant(s);
      }
      if Ending(s.a, n) {
        EndingStays(s.a, LeftEvent(s, t.move), n);
      } else {
        EofAsked(s.a);
      }
    }
  }

  lemma {:induction false} AbortedStays(s: Sys, ts: seq<Turn>, t: Sys)
    requires Runs(s, ts, t) && s.a.aborted
    ensures t.a.aborted
    decreases |ts|
  {
    if ts != [] {
      AbortedStays(Next(s, ts[0]).value, ts[1..], t);
    }
  }

  lemma {:induction false} EndingRuns(s: Sys, ts: seq<Turn>, t: Sys, n: nat)
    requires SysInv(s) && Runs(s, ts, t) && Ending(s.a, n) && !t.a.aborted
    ensures Ending(t.a, n)
    decreases |ts|
  {
    if ts != [] {
      TurnEnds(s, ts[0], n);
      var next := Next(s, ts[0]).value;
      if next.a.aborted {
        AbortedStays(next, ts[1..], t);
      }
      EndingRuns(next, ts[1..], t, n);
    }
  }

  lemma {:induction false} RunEnds(s: Sys, ts: seq<Turn>, t: Sys)
    requires SysInv(s) && Runs(s, ts, t) && !t.a.aborted && AskedBehind(s, ts, t).Some?
    ensures Ending(t.a, AskedBehind(s, ts, t).value)
    decreases |ts|
  {
    TurnKeeps(s, ts[0]);
    var next := Next(s, ts[0]).value;
    if ts[0] == EOF && s.a.chan.entry.Some? {
      TurnEnds(s, ts[0], |s.a.log.submitted|);
      if next.a.aborted {
        AbortedStays(next, ts[1..], t);
      }
      EndingRuns(next, ts[1..], t, |s.a.log.submitted|);
    } else {
      RunEnds(next, ts[1..], t);
    }
  }

  /** End of file is observed behind at least `n` bytes. */
  ghost predicate EndsBehind(ms: seq<Mark>, n: nat) {
    exists k :: 0 <= k < |ms| && ms[k] == EndOfFile && |PayloadMarks(ms[..k])| >= n
  }

  lemma BehindMarks(ps: seq<Packet>, n: nat)
    requires EofBehind(ps, n)
    ensures EndsBehind(Marks(ps, true), n)
  {
    var i :| 0 <= i < |ps| && ps[i].Eof? && DataLength(ps[..i]) >= n;
    assert ps == ps[..i] + [Eof] + ps[i + 1..];
    EofMark(ps[..i], ps[i + 1..]);
    MarksDeterminePayloads(ps[..i], true);
    var k := |Marks(ps[..i], true)|;
    assert Marks(ps, true)[k] == EndOfFile;
  }

  /** The mark of an EOF follows the marks of what is before it. */
  lemma EofMark(before: seq<Packet>, after: seq<Packet>)
    ensures
      var ms, k := Marks(before + [Eof] + after, true), |Marks(before, true)|;
      k < |ms| && ms[k] == EndOfFile && ms[..k] == Marks(before, true)
  {
    MarksConcat(before + [Eof], after, true);
    MarksConcat(before, [Eof], true);
    Singleton(Eof);
  }

  /**
   An end of file that was asked for is observed: whatever else the schedule does,
   once nothing is left to serve a reader that stayed has seen EOF behind all bytes
   submitted before the call, unless they were discarded by a close.
   */
  lemma EofHappens(start: Sys, ts: seq<Turn>, s: Sys)
    requires Initial(start) && Runs(start, ts, s) && AskedBehind(start, ts, s).Some? && EofCalls(ts) == 1
    requires Liveness.Served(s) && s.b.chan.config.window >= 2 && !s.b.log.cut && !s.a.aborted
    ensures Payloads(s.b.log.read) == s.a.log.submitted
    ensures EndsBehind(Marks(s.b.log.read, true), AskedBehind(start, ts, s).value)
  {
    InitialInv(start);
    RunEnds(start, ts, s);
    EofOnce(start, ts, s);
    assert Reachable(s);
    ReachableInv(s);
    Liveness.ServedIsIdle(s);
    Liveness.ServedMeansRead(s);
    if s.a.chan.entry.Some? {
      IdleMeansSent(s);
    }
    ReadToTheEnd(s);
    BehindMarks(s.a.log.sent, AskedBehind(start, ts, s).value);
  }
}
