/** Every step of an endpoint keeps both halves of its discipline, whatever a compliant peer does. */
module Discipline {
  import opened Common
  import opened Protocol
  import Outbound
  import Inbound
  import opened Channel
  import opened Endpoint
  import opened Sending
  import opened Receiving

  predicate EndpointInv(e: Endpoint) {
    SendInv(SenderOf(e)) && RecvInv(e)
  }

  /** What submitting data does to the receiving half: nothing, or a teardown. */
  lemma SubmitShape(ch: Chan, stream: Stream, bytes: seq<Byte>, f: Effect)
    requires ch.entry.Some? && ch.entry.value.recipientMax > 0 && ch.entry.value.confirmed
    requires SubmitData(ch, stream, bytes) == Ok(f)
    ensures Grants(f.out) == 0 && f.handed == []
    ensures f.chan.entry.Some? ==>
      && f.chan == ch.(entry := f.chan.entry)
      && f.chan.entry.value.confirmed && f.chan.entry.value.senderWindow == ch.entry.value.senderWindow
    ensures f.chan.entry.None? ==> f.chan == FinalizeClose(ch)
  {
    Outbound.DataOpEntry(ch.entry.value, stream, bytes, ch.rekeying);
    var r := Outbound.DataOp(ch.entry, stream, bytes, ch.rekeying).value;
    Outbound.DataOnly(r.out);
    Singleton(Close);
    GrantsConcat(r.out, [Close]);
  }

  lemma RecvAppDataLive(e: Endpoint, stream: Stream, bytes: seq<Byte>, f: Effect)
    requires RecvInv(e) && e.chan.entry.Some? && e.chan.entry.value.recipientMax > 0
    requires SubmitData(e.chan, stream, bytes) == Ok(f)
    ensures RecvInv(Record(e, AppData(stream, bytes), f))
  {
    var t := Record(e, AppData(stream, bytes), f);
    NoneAdded(e.log.delivered);
    SubmitShape(e.chan, stream, bytes, f);
    GrantsConcat(e.log.sent, f.out);
    if f.chan.entry.None? {
      RecvFinalized(e, t);
    } else {
      RecvOutbound(e, t);
    }
  }

  lemma KeepAppData(e: Endpoint, stream: Stream, bytes: seq<Byte>)
    requires EndpointInv(e)
    ensures SubmitData(e.chan, stream, bytes).Ok?
    ensures EndpointInv(Record(e, AppData(stream, bytes), SubmitData(e.chan, stream, bytes).value))
  {
    SendData(e, stream, bytes);
    var f := SubmitData(e.chan, stream, bytes).value;
    if e.chan.entry.None? {
      NoneAdded(e.log.delivered);
      NoneAdded(e.log.sent);
      RecvOutbound(e, Record(e, AppData(stream, bytes), f));
    } else {
      RecvAppDataLive(e, stream, bytes, f);
    }
  }

  lemma RecvAppEof(e: Endpoint)
    requires RecvInv(e)
    ensures RecvInv(Record(e, AppEof, SubmitEof(e.chan)))
  {
    var f := SubmitEof(e.chan);
    EofShape(e.chan);
    GrantsConcat(e.log.sent, f.out);
    NoneAdded(e.log.delivered);
    RecvOutbound(e, Record(e, AppEof, f));
  }

  lemma EofShape(ch: Chan)
    ensures
      var f := SubmitEof(ch);
      && f == Effect(ch.(entry := f.chan.entry), f.out, [], false) && Grants(f.out) == 0
      && f.chan.entry.Some? == ch.entry.Some?
      && (ch.entry.Some? ==> f.chan.entry.value == ch.entry.value.(pendingEof := f.chan.entry.value.pendingEof))
  {
    ControlFolds(SubmitEof(ch).out);
  }

  lemma KeepAppEof(e: Endpoint)
    requires EndpointInv(e)
    ensures EndpointInv(Record(e, AppEof, SubmitEof(e.chan)))
  {
    SendPlain(e, AppEof, SubmitEof(e.chan));
    RecvAppEof(e);
  }

  lemma RecvAppClose(e: Endpoint)
    requires RecvInv(e)
    ensures RecvInv(Record(e, AppClose, SubmitClose(e.chan)))
  {
    var f := SubmitClose(e.chan);
    var t := Record(e, AppClose, f);
    ControlFolds(f.out);
    GrantsConcat(e.log.sent, f.out);
    NoneAdded(e.log.delivered);
    if f.chan.app.present == e.chan.app.present {
      RecvOutbound(e, t);
    } else {
      RecvFinalized(e, t);
    }
  }

  lemma KeepAppClose(e: Endpoint)
    requires EndpointInv(e)
    ensures EndpointInv(Record(e, AppClose, SubmitClose(e.chan)))
  {
    SendPlain(e, AppClose, SubmitClose(e.chan));
    RecvAppClose(e);
  }

  lemma KeepRekeyBegin(e: Endpoint)
    requires EndpointInv(e) && !e.chan.rekeying
    ensures EndpointInv(Record(e, RekeyBegin, BeginRekey(e.chan)))
  {
    var f := BeginRekey(e.chan);
    SendPlain(e, RekeyBegin, f);
    NoneAdded(e.log.delivered);
    NoneAdded(e.log.sent);
    RecvOutbound(e, Record(e, RekeyBegin, f));
  }

  lemma FlushFrame(p: Outbound.Params)
    requires p.recipientMax > 0
    ensures Outbound.FlushOp(Some(p)).Ok?
    ensures
      var r := Outbound.FlushOp(Some(p)).value;
      && Grants(r.out) == 0
      && (r.entry.Some? ==> r.entry.value.confirmed == p.confirmed && r.entry.value.senderWindow == p.senderWindow)
  {
    Outbound.FlushOpEntry(p);
    Outbound.FlushOpPackets(p);
    var done := Outbound.PendingBytes(p.pending) <= p.recipientWindow;
    Outbound.ShapedFolds(Outbound.FlushOp(Some(p)).value.out, p.recipientMax, Outbound.FlushData(p).value.out,
                         done && p.pendingEof, done && p.pendingClose);
  }

  lemma KeepRekeyEnd(e: Endpoint)
    requires EndpointInv(e) && e.chan.rekeying
    ensures EndRekey(e.chan).Ok?
    ensures EndpointInv(Record(e, RekeyEnd, EndRekey(e.chan).value))
  {
    NoneAdded(e.log.delivered);
    NoneAdded(e.log.rcvd);
    if e.chan.entry.None? {
      NoneAdded(e.log.sent);
      var t := Record(e, RekeyEnd, EndRekey(e.chan).value);
      SendIdle(SenderOf(e), SenderOf(t), []);
      RecvOutbound(e, t);
    } else {
      FlushFrame(e.chan.entry.value);
      RekeyEndSends(e);
      RekeyEndReceives(e);
    }
  }

  lemma RekeyEndSends(e: Endpoint)
    requires SendInv(SenderOf(e)) && e.chan.rekeying && e.chan.entry.Some? && Outbound.FlushOp(e.chan.entry).Ok?
    ensures SendInv(SenderOf(Record(e, RekeyEnd, EndRekey(e.chan).value)))
  {
    NoneAdded(e.log.rcvd);
    SendFlush(SenderOf(e), SenderOf(Record(e, RekeyEnd, EndRekey(e.chan).value)), e.chan.entry.value, []);
  }

  lemma RekeyEndReceives(e: Endpoint)
    requires RecvInv(e) && e.chan.rekeying && e.chan.entry.Some? && e.chan.entry.value.recipientMax > 0
    requires Outbound.FlushOp(e.chan.entry).Ok?
    ensures RecvInv(Record(e, RekeyEnd, EndRekey(e.chan).value))
  {
    NoneAdded(e.log.delivered);
    FlushFrame(e.chan.entry.value);
    GrantsConcat(e.log.sent, Outbound.FlushOp(e.chan.entry).value.out);
    RecvOutbound(e, Record(e, RekeyEnd, EndRekey(e.chan).value));
  }

  lemma KeepAppRead(e: Endpoint)
    requires EndpointInv(e) && Enabled(e.chan, AppRead)
    ensures EndpointInv(Record(e, AppRead, TakeMessage(e.chan)))
  {
    SendPlain(e, AppRead, TakeMessage(e.chan));
    RecvRead(e);
  }

  lemma KeepDropReader(e: Endpoint)
    requires EndpointInv(e)
    ensures EndpointInv(Record(e, AppDropReader, DropReader(e.chan)))
  {
    SendPlain(e, AppDropReader, DropReader(e.chan));
    RecvDropReader(e);
  }

  lemma KeepReceiveData(e: Endpoint, stream: Stream, bytes: seq<Byte>, notify: bool)
    requires EndpointInv(e) && Compliant(e, Data(stream, bytes))
    ensures EndpointInv(Record(e, Receive(Data(stream, bytes), notify), ReceiveData(e.chan, stream, bytes)))
  {
    PlainReceiveData(e.chan, stream, bytes);
    SendPlain(e, Receive(Data(stream, bytes), notify), ReceiveData(e.chan, stream, bytes));
    if Queues(e.chan, Data(stream, bytes)) {
      RecvDataQueued(e, stream, bytes, notify);
    } else {
      RecvDataDirect(e, stream, bytes, notify);
    }
  }

  lemma KeepReceiveEof(e: Endpoint, notify: bool)
    requires EndpointInv(e) && Compliant(e, Eof)
    ensures EndpointInv(Record(e, Receive(Eof, notify), ReceiveEof(e.chan)))
  {
    SendPlain(e, Receive(Eof, notify), ReceiveEof(e.chan));
    if Queues(e.chan, Eof) {
      RecvEofQueued(e, notify);
    } else {
      RecvEofDirect(e, notify);
    }
  }

  lemma KeepReceiveClose(e: Endpoint, notify: bool)
    requires EndpointInv(e) && Compliant(e, Close)
    ensures EndpointInv(Record(e, Receive(Close, notify), ReceiveClose(e.chan)))
  {
    PlainReceiveClose(e.chan);
    SendPlain(e, Receive(Close, notify), ReceiveClose(e.chan));
    if e.chan.entry.None? && !e.chan.app.present {
      RecvCloseIgnored(e, notify);
    } else if Queues(e.chan, Close) {
      RecvCloseQueued(e, notify);
    } else {
      RecvCloseDirect(e, notify);
    }
  }

  lemma AdjustExact(e: Endpoint, amount: nat)
    requires EndpointInv(e) && Compliant(e, Adjust(amount)) && e.chan.entry.Some?
    ensures SaturatingAdd(e.chan.entry.value.recipientWindow, amount) == e.chan.entry.value.recipientWindow + amount
  {
  }

  /** The channel entry with the grant added, about to be flushed. */
  function Widened(e: Endpoint, amount: nat): Outbound.Params
    requires e.chan.entry.Some?
  {
    e.chan.entry.value.(recipientWindow := e.chan.entry.value.recipientWindow + amount)
  }

  lemma ReceiveAdjustShape(e: Endpoint, amount: nat, notify: bool)
    requires EndpointInv(e) && Compliant(e, Adjust(amount)) && e.chan.entry.Some?
    ensures ReceiveAdjust(e.chan, amount, notify).Ok? && Outbound.FlushOp(Some(Widened(e, amount))).Ok?
    ensures
      var f, r := ReceiveAdjust(e.chan, amount, notify).value, Outbound.FlushOp(Some(Widened(e, amount))).value;
      && f == Effect(e.chan.(entry := r.entry, app := f.chan.app), r.out, [], false)
      && (f.chan.app == e.chan.app || exists size :: f.chan.app == e.chan.app.Push(Inbound.WindowAdjusted(size)))
  {
    AdjustExact(e, amount);
    FlushFrame(Widened(e, amount));
  }

  lemma SendAdjusted(e: Endpoint, t: Endpoint, amount: nat)
    requires SendInv(SenderOf(e)) && e.chan.entry.Some? && Outbound.FlushOp(Some(Widened(e, amount))).Ok?
    requires
      var r := Outbound.FlushOp(Some(Widened(e, amount))).value;
      SenderOf(t) == SenderOf(e).(entry := r.entry, sent := e.log.sent + r.out, rcvd := e.log.rcvd + [Adjust(amount)])
    ensures SendInv(SenderOf(t))
  {
    Singleton(Adjust(amount));
    SendFlush(SenderOf(e), SenderOf(t), Widened(e, amount), [Adjust(amount)]);
  }

  lemma KeepReceiveAdjustLive(e: Endpoint, amount: nat, notify: bool)
    requires EndpointInv(e) && Compliant(e, Adjust(amount)) && e.chan.entry.Some?
    ensures ReceiveAdjust(e.chan, amount, notify).Ok?
    ensures EndpointInv(Record(e, Receive(Adjust(amount), notify), ReceiveAdjust(e.chan, amount, notify).value))
  {
    ReceiveAdjustShape(e, amount, notify);
    FlushFrame(Widened(e, amount));
    var f := ReceiveAdjust(e.chan, amount, notify).value;
    var t := Record(e, Receive(Adjust(amount), notify), f);
    NoneAdded(e.log.delivered);
    SendAdjusted(e, t, amount);
    RecvAdjusted(e, t, Adjust(amount), f.out);
  }

  lemma KeepReceiveAdjust(e: Endpoint, amount: nat, notify: bool)
    requires EndpointInv(e) && Compliant(e, Adjust(amount))
    ensures ReceiveAdjust(e.chan, amount, notify).Ok?
    ensures EndpointInv(Record(e, Receive(Adjust(amount), notify), ReceiveAdjust(e.chan, amount, notify).value))
  {
    if e.chan.entry.None? {
      NoneAdded(e.log.delivered);
      NoneAdded(e.log.sent);
      var t := Record(e, Receive(Adjust(amount), notify), ReceiveAdjust(e.chan, amount, notify).value);
      SendIdle(SenderOf(e), SenderOf(t), [Adjust(amount)]);
      RecvAdjusted(e, t, Adjust(amount), []);
    } else {
      KeepReceiveAdjustLive(e, amount, notify);
    }
  }

  lemma KeepResolve(e: Endpoint, k: nat)
    requires EndpointInv(e) && Enabled(e.chan, Resolve(k))
    ensures EndpointInv(Record(e, Resolve(k), Pump(e.chan, k)))
  {
    assert k == 0;
    PlainPump(e.chan, k);
    SendPlain(e, Resolve(k), Pump(e.chan, k));
    if e.chan.inbound.None? {
      RecvResolveStale(e);
    } else if !e.chan.app.readerOpen {
      RecvResolveGone(e);
    } else if e.chan.inbound.value.items[0].Close? {
      RecvResolveClose(e);
    } else {
      RecvResolveItem(e);
    }
  }

  function Apply(e: Endpoint, ev: Event): Endpoint
    requires Enabled(e.chan, ev) && Step(e.chan, ev).Ok?
  {
    Record(e, ev, Step(e.chan, ev).value)
  }

  /** No allowed step can fail, and every one keeps the discipline. */
  lemma StepKeeps(e: Endpoint, ev: Event)
    requires EndpointInv(e) && Allowed(e, ev)
    ensures Step(e.chan, ev).Ok?
    ensures EndpointInv(Apply(e, ev))
  {
    match ev
    case AppData(stream, bytes) => KeepAppData(e, stream, bytes);
    case AppEof => KeepAppEof(e);
    case AppClose => KeepAppClose(e);
    case AppRead => KeepAppRead(e);
    case AppDropReader => KeepDropReader(e);
    case Receive(Data(stream, bytes), notify) => KeepReceiveData(e, stream, bytes, notify);
    case Receive(Eof, notify) => KeepReceiveEof(e, notify);
    case Receive(Close, notify) => KeepReceiveClose(e, notify);
    case Receive(Adjust(amount), notify) => KeepReceiveAdjust(e, amount, notify);
    case Resolve(k) => KeepResolve(e, k);
    case RekeyBegin => KeepRekeyBegin(e);
    case RekeyEnd => KeepRekeyEnd(e);
  }

  // ------------------------------------------------------------- end of file

  /** A step that emits at most one EOF, and only once everything submitted has been sent. */
  predicate EofInOrder(e: Endpoint, ev: Event, f: Effect)
    requires Enabled(e.chan, ev)
  {
    var t := Record(e, ev, f);
    Eofs(f.out) <= 1 && (Eofs(f.out) == 1 ==> Payloads(t.log.sent) == t.log.submitted)
  }

  lemma FlushEof(e: Endpoint, ev: Event, p: Outbound.Params, f: Effect)
    requires SendInv(SenderOf(e)) && e.chan.entry.Some? && Enabled(e.chan, ev) && !ev.AppData?
    requires p.recipientMax > 0 && p.pending == e.chan.entry.value.pending
    requires Outbound.FlushOp(Some(p)).Ok? && f.out == Outbound.FlushOp(Some(p)).value.out
    ensures EofInOrder(e, ev, f)
  {
    Outbound.FlushOpPackets(p);
    Outbound.FlushOpEntry(p);
    var done := Outbound.PendingBytes(p.pending) <= p.recipientWindow;
    var data := Outbound.FlushData(p).value.out;
    Outbound.ShapedFolds(f.out, p.recipientMax, data, done && p.pendingEof, done && p.pendingClose);
    PayloadsConcat(e.log.sent, f.out);
    NoneAdded(Payloads(f.out));
  }

  lemma SubmitEofOrder(e: Endpoint)
    requires SendInv(SenderOf(e))
    ensures EofInOrder(e, AppEof, SubmitEof(e.chan))
  {
    var f := SubmitEof(e.chan);
    ControlFolds(f.out);
    PayloadsConcat(e.log.sent, f.out);
    NoneAdded(Payloads(e.log.sent));
    if f.out != [] {
      Singleton(Eof);
    }
  }

  lemma SubmitDataNoEof(e: Endpoint, stream: Stream, bytes: seq<Byte>)
    requires SendInv(SenderOf(e)) && SubmitData(e.chan, stream, bytes).Ok?
    ensures Eofs(SubmitData(e.chan, stream, bytes).value.out) == 0
  {
    if e.chan.entry.Some? {
      Outbound.DataOpEntry(e.chan.entry.value, stream, bytes, e.chan.rekeying);
      var out := Outbound.DataOp(e.chan.entry, stream, bytes, e.chan.rekeying).value.out;
      Outbound.DataOnly(out);
      Singleton(Close);
      EofsConcat(out, [Close]);
    }
  }

  /** Packets other than EOF, at most one of them. */
  lemma NoEof(out: seq<Packet>)
    requires out == [] || (|out| == 1 && !out[0].Eof?)
    ensures Eofs(out) == 0
  {
    if out != [] {
      Singleton(out[0]);
      assert out == [out[0]];
    }
  }

  /** A deferred or direct EOF goes out once, after all queued data, whatever step releases it. */
  lemma EofAfterData(e: Endpoint, ev: Event)
    requires EndpointInv(e) && Allowed(e, ev) && Step(e.chan, ev).Ok?
    ensures EofInOrder(e, ev, Step(e.chan, ev).value)
  {
    match ev
    case AppData(stream, bytes) => SubmitDataNoEof(e, stream, bytes);
    case AppEof => SubmitEofOrder(e);
    case Receive(Adjust(amount), notify) =>
      if e.chan.entry.Some? {
        ReceiveAdjustShape(e, amount, notify);
        FlushEof(e, ev, Widened(e, amount), ReceiveAdjust(e.chan, amount, notify).value);
      }
    case RekeyEnd =>
      if e.chan.entry.Some? {
        FlushEof(e, ev, e.chan.entry.value, EndRekey(e.chan).value);
      }
    case _ => OthersSendNoEof(e, ev);
  }

  lemma OthersSendNoEof(e: Endpoint, ev: Event)
    requires EndpointInv(e) && Allowed(e, ev) && Step(e.chan, ev).Ok?
    requires !ev.AppData? && !ev.AppEof? && !ev.RekeyEnd? && !(ev.Receive? && ev.packet.Adjust?)
    ensures Eofs(Step(e.chan, ev).value.out) == 0
  {
    match ev
    case Receive(Data(stream, bytes), _) => ReceiveDataNoEof(e.chan, stream, bytes);
    case Receive(Close, _) => NoEof(ReceiveClose(e.chan).out);
    case Resolve(k) => PumpNoEof(e.chan, k);
    case AppClose => NoEof(SubmitClose(e.chan).out);
    case _ =>
  }

  lemma ReceiveDataNoEof(ch: Chan, stream: Stream, bytes: seq<Byte>)
    ensures Eofs(ReceiveData(ch, stream, bytes).out) == 0
  {
    NoEof(ReceiveData(ch, stream, bytes).out);
  }

  lemma PumpNoEof(ch: Chan, k: nat)
    requires k < |ch.reserves|
    ensures Eofs(Pump(ch, k).out) == 0
  {
    NoEof(Pump(ch, k).out);
  }

  /** An EOF is owed while one is deferred. */
  function EofDue(entry: Option<Outbound.Params>): nat {
    if entry.Some? && entry.value.pendingEof then 1 else 0
  }

  lemma FlushPaysEof(p: Outbound.Params)
    requires p.recipientMax > 0
    ensures Outbound.FlushOp(Some(p)).Ok?
    ensures Eofs(Outbound.FlushOp(Some(p)).value.out) + EofDue(Outbound.FlushOp(Some(p)).value.entry) == EofDue(Some(p))
  {
    Outbound.FlushOpEntry(p);
    Outbound.FlushOpPackets(p);
    var done := Outbound.PendingBytes(p.pending) <= p.recipientWindow;
    Outbound.ShapedFolds(Outbound.FlushOp(Some(p)).value.out, p.recipientMax, Outbound.FlushData(p).value.out,
                         done && p.pendingEof, done && p.pendingClose);
  }

  /** The entry after a step owes an EOF exactly when the one before did, if it is still there. */
  predicate KeepsDue(ch: Chan, f: Effect) {
    if f.chan.entry.Some? then EofDue(f.chan.entry) == EofDue(ch.entry) else EofDue(f.chan.entry) == 0
  }

  lemma SubmitKeepsDue(e: Endpoint, stream: Stream, bytes: seq<Byte>)
    requires SendInv(SenderOf(e)) && SubmitData(e.chan, stream, bytes).Ok?
    ensures KeepsDue(e.chan, SubmitData(e.chan, stream, bytes).value)
  {
    if e.chan.entry.Some? {
      Outbound.DataOpEntry(e.chan.entry.value, stream, bytes, e.chan.rekeying);
    }
  }

  lemma OthersKeepDue(ch: Chan, ev: Event)
    requires Enabled(ch, ev) && Step(ch, ev).Ok?
    requires !ev.AppData? && !ev.AppEof? && !ev.RekeyEnd? && !(ev.Receive? && ev.packet.Adjust?)
    ensures KeepsDue(ch, Step(ch, ev).value)
  {
    match ev
    case Receive(Data(stream, bytes), _) => DataKeepsDue(ch, stream, bytes);
    case Receive(Close, _) => CloseKeepsDue(ch);
    case Resolve(k) => PumpKeepsDue(ch, k);
    case _ =>
  }

  lemma DataKeepsDue(ch: Chan, stream: Stream, bytes: seq<Byte>)
    ensures KeepsDue(ch, ReceiveData(ch, stream, bytes))
  {
  }

  lemma CloseKeepsDue(ch: Chan)
    ensures KeepsDue(ch, ReceiveClose(ch))
  {
  }

  lemma PumpKeepsDue(ch: Chan, k: nat)
    requires k < |ch.reserves|
    ensures KeepsDue(ch, Pump(ch, k))
  {
  }

  /** `eof` on an open channel: sent at once when nothing is parked, owed otherwise. */
  lemma SubmitEofOwes(ch: Chan)
    requires ch.entry.Some? && ch.entry.value.pending == [] ==> !ch.entry.value.pendingEof
    ensures Eofs(SubmitEof(ch).out) + EofDue(SubmitEof(ch).chan.entry) == if ch.entry.Some? then 1 else 0
    ensures Eofs(SubmitEof(ch).out) == if ch.entry.Some? && ch.entry.value.pending == [] then 1 else 0
  {
    Singleton(Eof);
  }

  /** What EOFs a step leaves sent or owed. */
  function EofOwed(e: Endpoint, ev: Event): nat {
    if ev.AppEof? && e.chan.entry.Some? then 1 else EofDue(e.chan.entry)
  }

  /** No EOF that was asked for on an open channel is forgotten, and none is made up: one is sent or owed from
      the call on, whatever happens, until a CLOSE of the peer or a full backlog discards what is parked. */
  lemma EofPaid(e: Endpoint, ev: Event)
    requires EndpointInv(e) && Allowed(e, ev) && Step(e.chan, ev).Ok?
    ensures
      var f := Step(e.chan, ev).value;
      && Eofs(f.out) + EofDue(f.chan.entry) <= EofOwed(e, ev)
      && (!Discards(e, ev, f) ==> Eofs(f.out) + EofDue(f.chan.entry) == EofOwed(e, ev))
      && (ev.AppEof? && e.chan.entry.Some? ==> (Eofs(f.out) == 1 <==> e.chan.entry.value.pending == []))
  {
    match ev
    case AppData(stream, bytes) =>
      SubmitDataNoEof(e, stream, bytes);
      SubmitKeepsDue(e, stream, bytes);
    case AppEof => SubmitEofOwes(e.chan);
    case Receive(Adjust(amount), notify) =>
      if e.chan.entry.Some? {
        ReceiveAdjustShape(e, amount, notify);
        FlushPaysEof(Widened(e, amount));
      }
    case RekeyEnd =>
      if e.chan.entry.Some? {
        FlushPaysEof(e.chan.entry.value);
      }
    case _ =>
      OthersSendNoEof(e, ev);
      OthersKeepDue(e.chan, ev);
      if e.chan.entry.Some? && Step(e.chan, ev).value.chan.entry.None? {
        NoneForgotten(e, ev);
      }
  }

  /** The other steps that remove the entry find no EOF owed, or discard it. */
  lemma NoneForgotten(e: Endpoint, ev: Event)
    requires EndpointInv(e) && Allowed(e, ev) && Step(e.chan, ev).Ok?
    requires !ev.AppData? && !ev.AppEof? && !ev.RekeyEnd? && !(ev.Receive? && ev.packet.Adjust?)
    requires e.chan.entry.Some? && Step(e.chan, ev).value.chan.entry.None?
    ensures Discards(e, ev, Step(e.chan, ev).value) || EofDue(e.chan.entry) == 0
  {
    if ev.Resolve? {
      PumpKeepsEntry(e, ev.k);
    }
  }

  /** A pump removes no entry: the CLOSE in the queue did so when it arrived. */
  lemma PumpKeepsEntry(e: Endpoint, k: nat)
    requires EndpointInv(e) && Enabled(e.chan, Resolve(k)) && e.chan.entry.Some?
    ensures Pump(e.chan, k).chan.entry.Some?
  {
    if e.chan.inbound.Some? {
      OneCloseOnly(e);
    }
  }

  lemma OneCloseOnly(e: Endpoint)
    requires RecvInv(e) && e.chan.entry.Some? && e.chan.inbound.Some?
    ensures !e.chan.inbound.value.closeQueued && !e.chan.inbound.value.items[0].Close?
  {
  }
}
