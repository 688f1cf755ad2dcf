/**
 The receiving half of an endpoint: window accounting, the inbound queue and its
 single reservation, and the order in which the application observes items.
 */
module Receiving {
  import opened Common
  import opened Protocol
  import Outbound
  import opened Inbound
  import opened Channel
  import opened Endpoint
  import Sending

  // -------------------------------------------------------------------- credit

  /** The numbers window accounting is about. */
  datatype Credit = Credit(window: nat, sender: Option<nat>, pending: nat, granted: nat, received: nat, stalled: bool)

  function CreditOf(e: Endpoint): Credit {
    Credit(
      e.chan.config.window,
      if e.chan.entry.Some? then Some(e.chan.entry.value.senderWindow) else None,
      PendingBytes(e.chan.inbound),
      Grants(e.log.sent),
      DataLength(e.log.rcvd),
      e.log.stalled)
  }

  /** Undelivered bytes stay charged: what was granted is at most what was delivered, so window plus
      backlog never exceeds the configured window; and an idle receiver advertises at least half of it. */
  predicate CreditInv(c: Credit) {
    && c.window <= U32_MAX
    && c.granted + c.pending <= c.received <= c.window + c.granted
    && (c.sender.Some? ==>
          && c.sender.value + c.received == c.window + c.granted
          && (c.pending == 0 && !c.stalled ==> c.sender.value >= c.window / 2))
  }

  /** `maybe_grant_recv_window` restores the credit invariant after bytes were handed over. */
  lemma GrantKeepsCredit(p: Option<Outbound.Params>, window: nat, pending: nat, granted: nat, received: nat, stalled: bool)
    requires window <= U32_MAX
    requires granted + pending <= received <= window + granted
    requires p.Some? ==> p.value.senderWindow + received == window + granted
    ensures
      var g := Outbound.Grant(p, window, Min(pending, U32_MAX));
      && g.entry.Some? == p.Some?
      && CreditInv(Credit(window, if g.entry.Some? then Some(g.entry.value.senderWindow) else None,
                          pending, granted + Grants(g.out), received, stalled))
  {
    var g := Outbound.Grant(p, window, Min(pending, U32_MAX));
    if g.out != [] {
      Singleton(g.out[0]);
      assert g.out == [g.out[0]];
    }
  }

  // --------------------------------------------------------------------- queue

  predicate GoodItem(p: Packet) {
    !p.Adjust? && (p.Data? ==> p.bytes != [])
  }

  /** The queue exists exactly while items wait, with exactly one reservation in flight for it. A
      reservation without a queue is stale, and then no queue can come back. */
  predicate Reserved(ch: Chan) {
    match ch.inbound
    case None => |ch.reserves| <= 1 && (ch.app.present && ch.app.readerOpen ==> ch.reserves == [])
    case Some(q) => q.items != [] && q.reserving && ch.app.present && ch.reserves == [q.generation]
  }

  /** The queue's counters and guards describe its contents. */
  predicate Counted(q: Queue, rcvd: seq<Packet>) {
    && (forall i :: 0 <= i < |q.items| ==> GoodItem(q.items[i]))
    && q.pendingBytes == DataLength(q.items)
    && Eofs(q.items) <= (if q.eofQueued then 1 else 0)
    && (q.eofQueued ==> Eofs(rcvd) >= 1)
    && (q.closeQueued ==> EndsWithClose(q.items) && EndsWithClose(rcvd))
    && (!q.closeQueued ==> NoClose(q.items))
  }

  predicate QueueInv(ch: Chan, rcvd: seq<Packet>) {
    && (NoClose(rcvd) || (EndsWithClose(rcvd) && ch.entry.None?))
    && (ch.entry.Some? ==> ch.entry.value.confirmed)
    && Reserved(ch)
    && (ch.inbound.Some? ==> Counted(ch.inbound.value, rcvd))
  }

  /** Zero-byte items cannot pile up: at most one EOF and one CLOSE besides the payload items. */
  lemma {:induction false} QueueLength(items: seq<Packet>)
    requires forall i :: 0 <= i < |items| ==> GoodItem(items[i])
    ensures |items| <= DataLength(items) + Eofs(items) + Closes(items)
  {
    if items != [] {
      QueueLength(items[1..]);
      assert items[0].Data? ==> |PayloadOf(items[0])| >= 1;
    }
  }

  function Closes(ps: seq<Packet>): nat {
    if ps == [] then 0 else (if ps[0].Close? then 1 else 0) + Closes(ps[1..])
  }

  lemma {:induction false} ClosesBound(ps: seq<Packet>)
    requires NoClose(ps) || EndsWithClose(ps)
    ensures Closes(ps) == if NoClose(ps) then 0 else 1
  {
    if ps != [] {
      if EndsWithClose(ps) && |ps| > 1 {
        assert ps[1..][..|ps| - 2] == ps[1..|ps| - 1];
        assert forall i :: 0 <= i < |ps| - 1 ==> ps[..|ps| - 1][i] == ps[i];
        assert !ps[0].Close?;
        assert EndsWithClose(ps[1..]);
      }
      ClosesBound(ps[1..]);
    }
  }

  // --------------------------------------------------------------------- order

  /** `a` shows the application the same as `b`; end-of-file marks count if `b` has at most one. */
  predicate SameMarks(a: seq<Packet>, b: seq<Packet>) {
    && Marks(a, false) == Marks(b, false)
    && (Eofs(b) <= 1 ==> Marks(a, true) == Marks(b, true))
  }

  lemma SameMarksAppend(a: seq<Packet>, b: seq<Packet>, p: Packet)
    requires SameMarks(a, b)
    ensures SameMarks(a + [p], b + [p])
  {
    EofsConcat(b, [p]);
    MarksConcat(a, [p], false);
    MarksConcat(b, [p], false);
    MarksConcat(a, [p], true);
    MarksConcat(b, [p], true);
  }

  /** Receiving something the application never observes. */
  lemma SameMarksSkip(a: seq<Packet>, b: seq<Packet>, p: Packet)
    requires SameMarks(a, b)
    requires p.Adjust? || (p.Data? && p.bytes == []) || (p.Eof? && Eofs(b) >= 1)
    ensures SameMarks(a, b + [p])
  {
    Singleton(p);
    EofsConcat(b, [p]);
    MarksConcat(b, [p], false);
    MarksConcat(b, [p], true);
  }

  /** While delivery has not been cut short, delivered ++ queued is what arrived, in order. */
  predicate OrderInv(ch: Chan, rcvd: seq<Packet>, delivered: seq<Packet>, cut: bool) {
    !cut ==>
      && ch.app.readerOpen
      && (ch.app.present || (ch.inbound.None? && EndsWithClose(rcvd)))
      && SameMarks(delivered + Items(ch.inbound), rcvd)
  }

  // ---------------------------------------------------------------------- read

  function Contents(buffer: seq<Message>): seq<Packet> {
    if buffer == [] then []
    else (if buffer[0].Item? then [buffer[0].packet] else []) + Contents(buffer[1..])
  }

  lemma {:induction false} ContentsAppend(buffer: seq<Message>, m: Message)
    ensures Contents(buffer + [m]) == Contents(buffer) + if m.Item? then [m.packet] else []
  {
    if buffer == [] {
      assert buffer + [m] == [m];
    } else {
      ContentsAppend(buffer[1..], m);
      assert (buffer + [m])[1..] == buffer[1..] + [m];
    }
  }

  /** What the reader took out, followed by what waits in the buffer, is what was delivered. */
  predicate ReadInv(app: App, read: seq<Packet>, delivered: seq<Packet>) {
    app.readerOpen ==> read + Contents(app.buffer) == delivered
  }

  // ------------------------------------------------------------ arriving items

  predicate RecvInv(e: Endpoint) {
    && e.chan.config.window <= e.chan.config.maxPendingInbound
    && e.chan.app.capacity >= 1
    && CreditInv(CreditOf(e))
    && QueueInv(e.chan, e.log.rcvd)
    && OrderInv(e.chan, e.log.rcvd, e.log.delivered, e.log.cut)
    && ReadInv(e.chan.app, e.log.read, e.log.delivered)
    && (e.chan.inbound.Some? && !e.chan.app.readerOpen ==> e.log.stalled)
  }

  /** A compliant item never overflows the pending cap. */
  lemma NeverOverflows(e: Endpoint, item: Packet)
    requires RecvInv(e) && Compliant(e, item) && !item.Adjust?
    ensures !Deliver(e.chan.app, e.chan.inbound, e.chan.config.maxPendingInbound, item).outcome.Overflow?
  {
  }

  /** A repeat of a control item that is already queued. */
  predicate Duplicate(ch: Chan, item: Packet) {
    && ch.inbound.Some?
    && ((item.Eof? && ch.inbound.value.eofQueued) || (item.Close? && ch.inbound.value.closeQueued))
  }

  function QueueOf(inbound: Option<Queue>): Queue {
    if inbound.Some? then inbound.value else DEFAULT_QUEUE
  }

  /** The first item to wait, and the reservation it asks for. */
  lemma DeliverFirst(app: App, cap: nat, item: Packet)
    requires !item.Adjust? && Deliver(app, None, cap, item).outcome.Queued?
    ensures Deliver(app, None, cap, item) == Delivery(app, Some(Enqueue(DEFAULT_QUEUE, item)), true, Queued)
    ensures GoodItem(item) && app.present && app.readerOpen
  {
  }

  /** A later item, or a repeat of a control item. */
  lemma DeliverMore(app: App, q: Queue, cap: nat, item: Packet)
    requires !item.Adjust? && q.reserving && Deliver(app, Some(q), cap, item).outcome.Queued?
    ensures GoodItem(item)
    ensures
      Deliver(app, Some(q), cap, item)
      == Delivery(app, Some(if (item.Eof? && q.eofQueued) || (item.Close? && q.closeQueued) then q else Enqueue(q, item)), false, Queued)
  {
  }

  lemma SettleFirst(ch: Chan, item: Packet)
    requires ch.inbound == Some(Enqueue(DEFAULT_QUEUE, item)) && ch.app.present
    ensures Settle(ch, true) == ch.(reserves := ch.reserves + [0])
  {
    assert Enqueue(DEFAULT_QUEUE, item).items == [item];
  }

  /** The queueing path, after the reservation it asked for was registered. */
  lemma QueuedShape(ch: Chan, item: Packet)
    requires Reserved(ch) && !item.Adjust?
    requires Deliver(ch.app, ch.inbound, ch.config.maxPendingInbound, item).outcome.Queued?
    ensures
      var d := Deliver(ch.app, ch.inbound, ch.config.maxPendingInbound, item);
      var m := Settle(ch.(app := d.app, inbound := d.inbound), d.needsReserve);
      && GoodItem(item) && m.app == ch.app && ch.app.present && (ch.inbound.None? ==> ch.app.readerOpen)
      && (Duplicate(ch, item) ==> m == ch)
      && (!Duplicate(ch, item) ==>
            m == ch.(inbound := Some(Enqueue(QueueOf(ch.inbound), item)), reserves := [QueueOf(ch.inbound).generation]))
  {
    if ch.inbound.None? {
      DeliverFirst(ch.app, ch.config.maxPendingInbound, item);
      SettleFirst(ch.(inbound := Some(Enqueue(DEFAULT_QUEUE, item))), item);
    } else {
      DeliverMore(ch.app, ch.inbound.value, ch.config.maxPendingInbound, item);
    }
  }

  /** The direct path and the paths with no receiver. */
  lemma DirectShape(ch: Chan, item: Packet)
    requires Reserved(ch) && !item.Adjust?
    requires
      var d := Deliver(ch.app, ch.inbound, ch.config.maxPendingInbound, item);
      d.outcome.Delivered? || d.outcome.ChannelGone?
    ensures
      var d := Deliver(ch.app, ch.inbound, ch.config.maxPendingInbound, item);
      && d.inbound == ch.inbound
      && (d.app == ch.app || (d.app == ch.app.Push(Item(item)) && ch.app.HasRoom() && ch.inbound.None? && GoodItem(item)))
      && (d.app == ch.app ==> !GoodItem(item) || !(ch.app.present && ch.app.readerOpen))
  {
  }

  lemma ReceivedFolds(rcvd: seq<Packet>, item: Packet)
    ensures DataLength(rcvd + [item]) == DataLength(rcvd) + ByteLen(item)
    ensures Eofs(rcvd + [item]) == Eofs(rcvd) + if item.Eof? then 1 else 0
  {
    Singleton(item);
    PayloadsConcat(rcvd, [item]);
    EofsConcat(rcvd, [item]);
  }

  /** A compliant packet is charged in full. */
  lemma ConsumeFits(p: Outbound.Params, len: nat)
    requires len <= p.senderWindow <= U32_MAX
    ensures Outbound.Consume(p, len) == p.(senderWindow := p.senderWindow - len)
  {
  }

  function Charged(entry: Option<Outbound.Params>, len: nat): Option<Outbound.Params> {
    if entry.Some? then Some(Outbound.Consume(entry.value, len)) else None
  }

  lemma ChargedCredit(e: Endpoint, item: Packet)
    requires CreditInv(CreditOf(e)) && Compliant(e, item) && item.Data?
    ensures
      var entry := Charged(e.chan.entry, |item.bytes|);
      entry.Some? ==> entry.value.senderWindow + DataLength(e.log.rcvd) + |item.bytes|
                      == e.chan.config.window + Grants(e.log.sent)
  {
    if e.chan.entry.Some? {
      ConsumeFits(e.chan.entry.value, |item.bytes|);
    }
  }

  lemma QueuedDataCredit(e: Endpoint, item: Packet, t: Endpoint)
    requires RecvInv(e) && Compliant(e, item) && item.Data? && item.bytes != []
    requires t.chan.config == e.chan.config && t.log.sent == e.log.sent && t.log.rcvd == e.log.rcvd + [item]
    requires t.log.stalled == e.log.stalled
    requires t.chan.entry == Charged(e.chan.entry, |item.bytes|)
    requires PendingBytes(t.chan.inbound) == PendingBytes(e.chan.inbound) + |item.bytes|
    ensures CreditInv(CreditOf(t))
  {
    ReceivedFolds(e.log.rcvd, item);
    ChargedCredit(e, item);
  }

  lemma DirectDataCredit(e: Endpoint, item: Packet, t: Endpoint)
    requires RecvInv(e) && Compliant(e, item) && item.Data?
    requires t.chan.config == e.chan.config && t.log.rcvd == e.log.rcvd + [item]
    requires t.log.stalled == e.log.stalled
    requires PendingBytes(t.chan.inbound) == PendingBytes(e.chan.inbound)
    requires
      var g := Outbound.Grant(Charged(e.chan.entry, |item.bytes|), e.chan.config.window,
                              Min(PendingBytes(e.chan.inbound), U32_MAX));
      t.chan.entry == g.entry && t.log.sent == e.log.sent + g.out
    ensures CreditInv(CreditOf(t))
  {
    ReceivedFolds(e.log.rcvd, item);
    ChargedCredit(e, item);
    var entry := Charged(e.chan.entry, |item.bytes|);
    GrantKeepsCredit(entry, e.chan.config.window, PendingBytes(e.chan.inbound), Grants(e.log.sent),
                     DataLength(e.log.rcvd) + |item.bytes|, e.log.stalled);
    GrantsConcat(e.log.sent, Outbound.Grant(entry, e.chan.config.window, Min(PendingBytes(e.chan.inbound), U32_MAX)).out);
  }

  /** The CHANNEL_DATA arm when nothing overflows: queue and charge, or hand over and grant. */
  lemma ReceiveDataShape(ch: Chan, stream: Stream, bytes: seq<Byte>)
    requires Reserved(ch)
    requires !Deliver(ch.app, ch.inbound, ch.config.maxPendingInbound, Data(stream, bytes)).outcome.Overflow?
    ensures
      var item := Data(stream, bytes);
      var f := ReceiveData(ch, stream, bytes);
      var entry := Charged(ch.entry, |bytes|);
      var g := Outbound.Grant(entry, ch.config.window, Min(PendingBytes(ch.inbound), U32_MAX));
      if Deliver(ch.app, ch.inbound, ch.config.maxPendingInbound, item).outcome.Queued? then
        && GoodItem(item) && ch.app.present && (ch.inbound.None? ==> ch.app.readerOpen)
        && f == Effect(Waiting(ch, entry, item), [], [], false)
      else
        && f == Effect(ch.(entry := g.entry, app := f.chan.app), g.out, f.handed, false)
        && Handed(ch, item, f.chan.app, f.handed)
  {
    var item := Data(stream, bytes);
    if Deliver(ch.app, ch.inbound, ch.config.maxPendingInbound, item).outcome.Queued? {
      QueuedShape(ch.(entry := Charged(ch.entry, |bytes|)), item);
    } else {
      DirectShape(ch, item);
    }
  }

  /** The channel with one more item waiting. */
  function Waiting(ch: Chan, entry: Option<Outbound.Params>, item: Packet): Chan {
    ch.(entry := entry, inbound := Some(Enqueue(QueueOf(ch.inbound), item)), reserves := [QueueOf(ch.inbound).generation])
  }

  /** Either the item went into the buffer, or there was nothing or nobody to hand over. */
  predicate Handed(ch: Chan, item: Packet, app: App, handed: seq<Packet>) {
    || (app == ch.app && handed == [] && (!GoodItem(item) || !(ch.app.present && ch.app.readerOpen)))
    || (app == ch.app.Push(Item(item)) && handed == [item] && GoodItem(item) && ch.app.HasRoom() && ch.inbound.None?)
  }

  lemma ReceiveDataCredit(e: Endpoint, stream: Stream, bytes: seq<Byte>)
    requires RecvInv(e) && Compliant(e, Data(stream, bytes))
    ensures CreditInv(CreditOf(Record(e, Receive(Data(stream, bytes), false), ReceiveData(e.chan, stream, bytes))))
  {
    var item := Data(stream, bytes);
    NeverOverflows(e, item);
    ReceiveDataShape(e.chan, stream, bytes);
    var t := Record(e, Receive(item, false), ReceiveData(e.chan, stream, bytes));
    if Deliver(e.chan.app, e.chan.inbound, e.chan.config.maxPendingInbound, item).outcome.Queued? {
      assert e.log.sent + [] == e.log.sent;
      QueuedDataCredit(e, item, t);
    } else {
      DirectDataCredit(e, item, t);
    }
  }

  // --- what waiting and handing over do to the other three invariants

  lemma CloseAppend(ps: seq<Packet>, p: Packet)
    requires NoClose(ps)
    ensures p.Close? ==> EndsWithClose(ps + [p])
    ensures !p.Close? ==> NoClose(ps + [p])
  {
    assert (ps + [p])[..|ps + [p]| - 1] == ps;
  }

  lemma EnqueueCounted(q: Queue, rcvd: seq<Packet>, item: Packet)
    requires Counted(q, rcvd) && NoClose(rcvd) && GoodItem(item)
    requires !(item.Eof? && q.eofQueued)
    ensures Counted(Enqueue(q, item), rcvd + [item])
  {
    ReceivedFolds(q.items, item);
    ReceivedFolds(rcvd, item);
    assert !q.closeQueued;
    CloseAppend(q.items, item);
    CloseAppend(rcvd, item);
  }

  lemma WaitingQueue(ch: Chan, entry: Option<Outbound.Params>, rcvd: seq<Packet>, item: Packet)
    requires QueueInv(ch, rcvd) && NoClose(rcvd) && GoodItem(item) && !Duplicate(ch, item) && ch.app.present
    requires entry.Some? ==> ch.entry.Some? && entry.value.confirmed && !item.Close?
    ensures QueueInv(Waiting(ch, entry, item), rcvd + [item])
  {
    var w := Waiting(ch, entry, item);
    EnqueueCounted(QueueOf(ch.inbound), rcvd, item);
    CloseAppend(rcvd, item);
    assert |w.inbound.value.items| > 0;
    assert Reserved(w);
  }

  lemma HandedQueue(ch: Chan, entry: Option<Outbound.Params>, rcvd: seq<Packet>, item: Packet, app: App, handed: seq<Packet>)
    requires QueueInv(ch, rcvd) && NoClose(rcvd) && !item.Close?
    requires Handed(ch, item, app, handed)
    requires entry.Some? ==> ch.entry.Some? && entry.value.confirmed
    ensures QueueInv(ch.(entry := entry, app := app), rcvd + [item])
  {
    ReceivedFolds(rcvd, item);
  }

  lemma WaitingOrder(ch: Chan, entry: Option<Outbound.Params>, rcvd: seq<Packet>, delivered: seq<Packet>, cut: bool, item: Packet)
    requires OrderInv(ch, rcvd, delivered, cut) && NoClose(rcvd) && ch.app.present
    ensures OrderInv(Waiting(ch, entry, item), rcvd + [item], delivered, cut)
  {
    if !cut {
      SameMarksAppend(delivered + Items(ch.inbound), rcvd, item);
      assert delivered + (QueueOf(ch.inbound).items + [item]) == delivered + Items(ch.inbound) + [item];
    }
  }

  lemma HandedOrder(ch: Chan, entry: Option<Outbound.Params>, rcvd: seq<Packet>, delivered: seq<Packet>, cut: bool,
                    item: Packet, app: App, handed: seq<Packet>)
    requires OrderInv(ch, rcvd, delivered, cut) && NoClose(rcvd)
    requires Handed(ch, item, app, handed)
    ensures OrderInv(ch.(entry := entry, app := app), rcvd + [item], delivered + handed, cut)
  {
    if !cut {
      if handed == [] {
        assert delivered + handed == delivered;
        SameMarksSkip(delivered + Items(ch.inbound), rcvd, item);
      } else {
        SameMarksAppend(delivered + Items(ch.inbound), rcvd, item);
        assert delivered + handed + Items(ch.inbound) == delivered + Items(ch.inbound) + [item];
      }
    }
  }

  lemma HandedRead(ch: Chan, read: seq<Packet>, delivered: seq<Packet>, item: Packet, app: App, handed: seq<Packet>)
    requires ReadInv(ch.app, read, delivered)
    requires Handed(ch, item, app, handed)
    ensures ReadInv(app, read, delivered + handed)
  {
    if handed == [] {
      assert delivered + handed == delivered;
    } else {
      ContentsAppend(ch.app.buffer, Item(item));
      assert read + (Contents(ch.app.buffer) + [item]) == read + Contents(ch.app.buffer) + [item];
    }
  }

  // ---------------------------------------------------------------- each event

  /** An item joined the queue. */
  lemma RecvWaiting(e: Endpoint, t: Endpoint, item: Packet)
    requires RecvInv(e) && NoClose(e.log.rcvd) && GoodItem(item) && !Duplicate(e.chan, item) && e.chan.app.present
    requires e.chan.inbound.None? ==> e.chan.app.readerOpen
    requires t.chan == Waiting(e.chan, t.chan.entry, item)
    requires t.log == e.log.(sent := t.log.sent, rcvd := e.log.rcvd + [item])
    requires t.chan.entry.Some? ==> e.chan.entry.Some? && t.chan.entry.value.confirmed && !item.Close?
    requires CreditInv(CreditOf(t))
    ensures RecvInv(t)
  {
    WaitingQueue(e.chan, t.chan.entry, e.log.rcvd, item);
    WaitingOrder(e.chan, t.chan.entry, e.log.rcvd, e.log.delivered, e.log.cut, item);
  }

  /** An item other than CLOSE was handed over, or could not be. */
  lemma RecvHanded(e: Endpoint, t: Endpoint, item: Packet, handed: seq<Packet>)
    requires RecvInv(e) && NoClose(e.log.rcvd) && !item.Close?
    requires t.chan == e.chan.(entry := t.chan.entry, app := t.chan.app)
    requires t.log == e.log.(sent := t.log.sent, rcvd := e.log.rcvd + [item], delivered := e.log.delivered + handed)
    requires Handed(e.chan, item, t.chan.app, handed)
    requires t.chan.entry.Some? ==> e.chan.entry.Some? && t.chan.entry.value.confirmed
    requires CreditInv(CreditOf(t))
    ensures RecvInv(t)
  {
    HandedQueue(e.chan, t.chan.entry, e.log.rcvd, item, t.chan.app, handed);
    HandedOrder(e.chan, t.chan.entry, e.log.rcvd, e.log.delivered, e.log.cut, item, t.chan.app, handed);
    HandedRead(e.chan, e.log.read, e.log.delivered, item, t.chan.app, handed);
  }

  /** Whether an arriving item ends up in the queue. */
  predicate Queues(ch: Chan, item: Packet)
    requires !item.Adjust?
  {
    Deliver(ch.app, ch.inbound, ch.config.maxPendingInbound, item).outcome.Queued?
  }

  lemma RecvDataQueued(e: Endpoint, stream: Stream, bytes: seq<Byte>, notify: bool)
    requires RecvInv(e) && Compliant(e, Data(stream, bytes)) && Queues(e.chan, Data(stream, bytes))
    ensures RecvInv(Record(e, Receive(Data(stream, bytes), notify), ReceiveData(e.chan, stream, bytes)))
  {
    var item := Data(stream, bytes);
    ReceiveDataShape(e.chan, stream, bytes);
    ReceiveDataCredit(e, stream, bytes);
    assert e.log.delivered + [] == e.log.delivered;
    RecvWaiting(e, Record(e, Receive(item, notify), ReceiveData(e.chan, stream, bytes)), item);
  }

  lemma RecvDataDirect(e: Endpoint, stream: Stream, bytes: seq<Byte>, notify: bool)
    requires RecvInv(e) && Compliant(e, Data(stream, bytes)) && !Queues(e.chan, Data(stream, bytes))
    ensures RecvInv(Record(e, Receive(Data(stream, bytes), notify), ReceiveData(e.chan, stream, bytes)))
  {
    var item := Data(stream, bytes);
    NeverOverflows(e, item);
    ReceiveDataCredit(e, stream, bytes);
    DataDirectShape(e.chan, stream, bytes);
    RecvHanded(e, Record(e, Receive(item, notify), ReceiveData(e.chan, stream, bytes)), item,
               ReceiveData(e.chan, stream, bytes).handed);
  }

  lemma DataDirectShape(ch: Chan, stream: Stream, bytes: seq<Byte>)
    requires Reserved(ch) && !Queues(ch, Data(stream, bytes))
    requires !Deliver(ch.app, ch.inbound, ch.config.maxPendingInbound, Data(stream, bytes)).outcome.Overflow?
    ensures
      var f := ReceiveData(ch, stream, bytes);
      && f.chan == ch.(entry := f.chan.entry, app := f.chan.app) && !f.failAcks
      && Handed(ch, Data(stream, bytes), f.chan.app, f.handed)
      && f.chan.entry.Some? == ch.entry.Some?
      && (ch.entry.Some? ==> f.chan.entry.value.confirmed == ch.entry.value.confirmed)
  {
    ReceiveDataShape(ch, stream, bytes);
  }

  /** Receiving a packet without data leaves the numbers alone. */
  lemma SameCredit(e: Endpoint, t: Endpoint)
    requires CreditInv(CreditOf(e))
    requires t.chan.config == e.chan.config
    requires DataLength(t.log.rcvd) == DataLength(e.log.rcvd) && Grants(t.log.sent) == Grants(e.log.sent)
    requires PendingBytes(t.chan.inbound) == PendingBytes(e.chan.inbound)
    requires e.log.stalled ==> t.log.stalled
    requires t.chan.entry.Some? ==> e.chan.entry.Some? && t.chan.entry.value.senderWindow == e.chan.entry.value.senderWindow
    ensures CreditInv(CreditOf(t))
  {
  }

  lemma EofQueuedShape(ch: Chan)
    requires Reserved(ch) && Queues(ch, Eof)
    ensures ReceiveEof(ch) == Effect(if Duplicate(ch, Eof) then ch else Waiting(ch, ch.entry, Eof), [], [], false)
    ensures ch.app.present && (ch.inbound.None? ==> ch.app.readerOpen)
  {
    QueuedShape(ch, Eof);
  }

  /** A repeated EOF, or one that waits; `f` is what the arm did. */
  lemma RecvEofStep(e: Endpoint, notify: bool, f: Effect)
    requires RecvInv(e) && NoClose(e.log.rcvd) && e.chan.app.present && (e.chan.inbound.None? ==> e.chan.app.readerOpen)
    requires f == Effect(if Duplicate(e.chan, Eof) then e.chan else Waiting(e.chan, e.chan.entry, Eof), [], [], false)
    ensures RecvInv(Record(e, Receive(Eof, notify), f))
  {
    var t := Record(e, Receive(Eof, notify), f);
    ReceivedFolds(e.log.rcvd, Eof);
    assert e.log.delivered + [] == e.log.delivered && e.log.sent + [] == e.log.sent;
    SameCredit(e, t);
    if Duplicate(e.chan, Eof) {
      RecvSkipped(e, t, Eof);
    } else {
      RecvWaiting(e, t, Eof);
    }
  }

  lemma RecvEofQueued(e: Endpoint, notify: bool)
    requires RecvInv(e) && Compliant(e, Eof) && Queues(e.chan, Eof)
    ensures RecvInv(Record(e, Receive(Eof, notify), ReceiveEof(e.chan)))
  {
    EofQueuedShape(e.chan);
    RecvEofStep(e, notify, ReceiveEof(e.chan));
  }

  lemma RecvEofDirect(e: Endpoint, notify: bool)
    requires RecvInv(e) && Compliant(e, Eof) && !Queues(e.chan, Eof)
    ensures RecvInv(Record(e, Receive(Eof, notify), ReceiveEof(e.chan)))
  {
    var t := Record(e, Receive(Eof, notify), ReceiveEof(e.chan));
    NeverOverflows(e, Eof);
    ReceivedFolds(e.log.rcvd, Eof);
    assert e.log.sent + [] == e.log.sent;
    DirectShape(e.chan, Eof);
    SameCredit(e, t);
    RecvHanded(e, t, Eof, ReceiveEof(e.chan).handed);
  }

  /** A packet the application never observes. */
  lemma RecvSkipped(e: Endpoint, t: Endpoint, p: Packet)
    requires RecvInv(e) && NoClose(e.log.rcvd)
    requires p.Adjust? || (p.Eof? && Duplicate(e.chan, Eof))
    requires t.chan == e.chan.(entry := t.chan.entry, app := t.chan.app)
    requires t.log == e.log.(sent := t.log.sent, rcvd := e.log.rcvd + [p])
    requires t.chan.app == e.chan.app || (exists size :: t.chan.app == e.chan.app.Push(WindowAdjusted(size)))
    requires t.chan.entry.Some? ==> e.chan.entry.Some? && t.chan.entry.value.confirmed
    requires CreditInv(CreditOf(t))
    ensures RecvInv(t)
  {
    ReceivedFolds(e.log.rcvd, p);
    CloseAppend(e.log.rcvd, p);
    if !e.log.cut {
      SameMarksSkip(e.log.delivered + Items(e.chan.inbound), e.log.rcvd, p);
    }
    if t.chan.app != e.chan.app {
      var size :| t.chan.app == e.chan.app.Push(WindowAdjusted(size));
      ContentsAppend(e.chan.app.buffer, WindowAdjusted(size));
    }
  }

  // --------------------------------------------------------------------- CLOSE

  /** CLOSE for a channel that is already gone here. */
  lemma RecvCloseIgnored(e: Endpoint, notify: bool)
    requires RecvInv(e) && Compliant(e, Close) && e.chan.entry.None? && !e.chan.app.present
    ensures RecvInv(Record(e, Receive(Close, notify), ReceiveClose(e.chan)))
  {
    ReceivedFolds(e.log.rcvd, Close);
    CloseAppend(e.log.rcvd, Close);
    assert e.log.delivered + [] == e.log.delivered && e.log.sent + [] == e.log.sent;
    SameCredit(e, Record(e, Receive(Close, notify), ReceiveClose(e.chan)));
  }

  lemma CloseOut(entry: Option<Outbound.Params>, sent: seq<Packet>)
    ensures Outbound.CloseDiscarding(entry).entry.None?
    ensures Grants(sent + Outbound.CloseDiscarding(entry).out) == Grants(sent)
  {
    Singleton(Close);
    GrantsConcat(sent, Outbound.CloseDiscarding(entry).out);
  }

  lemma RecvCloseQueued(e: Endpoint, notify: bool)
    requires RecvInv(e) && Compliant(e, Close) && (e.chan.entry.Some? || e.chan.app.present) && Queues(e.chan, Close)
    ensures RecvInv(Record(e, Receive(Close, notify), ReceiveClose(e.chan)))
  {
    var t := Record(e, Receive(Close, notify), ReceiveClose(e.chan));
    ReceivedFolds(e.log.rcvd, Close);
    CloseOut(e.chan.entry, e.log.sent);
    assert e.log.delivered + [] == e.log.delivered;
    QueuedShape(e.chan.(entry := None), Close);
    assert t.chan == Waiting(e.chan, None, Close);
    ReceivedFolds(QueueOf(e.chan.inbound).items, Close);
    assert PendingBytes(t.chan.inbound) == PendingBytes(e.chan.inbound);
    SameCredit(e, t);
    RecvWaiting(e, t, Close);
  }

  /** The channel was torn down: no queue, no entry, no sender to the application. */
  lemma RecvTornDown(e: Endpoint, t: Endpoint)
    requires RecvInv(e)
    requires t.chan.config == e.chan.config && t.chan.entry.None? && t.chan.inbound.None? && !t.chan.app.present
    requires t.chan.app.capacity == e.chan.app.capacity && t.chan.app.readerOpen == e.chan.app.readerOpen
    requires |t.chan.reserves| <= 1
    requires Grants(t.log.sent) == Grants(e.log.sent) && DataLength(t.log.rcvd) == DataLength(e.log.rcvd)
    requires t.log.stalled == e.log.stalled
    requires NoClose(t.log.rcvd) || EndsWithClose(t.log.rcvd)
    requires OrderInv(t.chan, t.log.rcvd, t.log.delivered, t.log.cut)
    requires ReadInv(t.chan.app, t.log.read, t.log.delivered)
    ensures RecvInv(t)
  {
  }

  lemma RecvCloseDirect(e: Endpoint, notify: bool)
    requires RecvInv(e) && Compliant(e, Close) && (e.chan.entry.Some? || e.chan.app.present) && !Queues(e.chan, Close)
    ensures RecvInv(Record(e, Receive(Close, notify), ReceiveClose(e.chan)))
  {
    var f := ReceiveClose(e.chan);
    var t := Record(e, Receive(Close, notify), f);
    NeverOverflows(e, Close);
    DirectShape(e.chan, Close);
    ReceivedFolds(e.log.rcvd, Close);
    CloseAppend(e.log.rcvd, Close);
    CloseOut(e.chan.entry, e.log.sent);
    var app := Deliver(e.chan.app, e.chan.inbound, e.chan.config.maxPendingInbound, Close).app;
    assert Handed(e.chan, Close, app, f.handed);
    HandedRead(e.chan, e.log.read, e.log.delivered, Close, app, f.handed);
    if f.handed != [] {
      HandedOrder(e.chan, None, e.log.rcvd, e.log.delivered, e.log.cut, Close, app, f.handed);
    }
    RecvTornDown(e, t);
  }

  // ------------------------------------------------------- grants from the peer

  /** CHANNEL_WINDOW_ADJUST touches only the sending half. */
  lemma RecvAdjusted(e: Endpoint, t: Endpoint, p: Packet, out: seq<Packet>)
    requires RecvInv(e) && NoClose(e.log.rcvd) && p.Adjust? && Grants(out) == 0
    requires t.chan == e.chan.(entry := t.chan.entry, app := t.chan.app)
    requires t.chan.app == e.chan.app || (exists size :: t.chan.app == e.chan.app.Push(WindowAdjusted(size)))
    requires t.log == e.log.(sent := e.log.sent + out, rcvd := e.log.rcvd + [p])
    requires t.chan.entry.Some? ==> e.chan.entry.Some? && t.chan.entry.value.confirmed
                                    && t.chan.entry.value.senderWindow == e.chan.entry.value.senderWindow
    ensures RecvInv(t)
  {
    ReceivedFolds(e.log.rcvd, p);
    GrantsConcat(e.log.sent, out);
    SameCredit(e, t);
    RecvSkipped(e, t, p);
  }

  // --------------------------------------------------------------- reservations

  /** What a resolved reservation leaves behind when it delivers the head item. */
  function Popped(ch: Chan, q: Queue, entry: Option<Outbound.Params>): Chan
    requires q.items != []
  {
    var rest := q.(items := q.items[1..], pendingBytes := SaturatingSub(q.pendingBytes, ByteLen(q.items[0])));
    ch.(entry := entry,
        app := ch.app.Push(Item(q.items[0])),
        inbound := if rest.items == [] then None else Some(rest),
        reserves := if rest.items == [] then [] else [q.generation])
  }

  function PoppedBytes(q: Queue): nat
    requires q.items != []
  {
    SaturatingSub(q.pendingBytes, ByteLen(q.items[0]))
  }

  lemma PumpShape(ch: Chan)
    requires Reserved(ch) && ch.inbound.Some? && ch.app.readerOpen && !ch.inbound.value.items[0].Close?
    ensures
      var q := ch.inbound.value;
      var g := if q.items[0].Data? then Outbound.Grant(ch.entry, ch.config.window, Min(PoppedBytes(q), U32_MAX))
               else Outbound.Emitted(ch.entry, []);
      Pump(ch, 0) == Effect(Popped(ch, q, g.entry), g.out, [q.items[0]], false)
  {
    var q := ch.inbound.value;
    assert ch.reserves[..0] + ch.reserves[1..] == [];
    assert [] + [q.generation] == [q.generation];
  }

  lemma PoppedFolds(items: seq<Packet>)
    requires items != []
    ensures DataLength(items) == ByteLen(items[0]) + DataLength(items[1..])
    ensures Eofs(items) == (if items[0].Eof? then 1 else 0) + Eofs(items[1..])
  {
  }

  lemma PoppedCounted(q: Queue, rcvd: seq<Packet>)
    requires Counted(q, rcvd) && q.items != [] && !q.items[0].Close?
    ensures
      var rest := q.(items := q.items[1..], pendingBytes := SaturatingSub(q.pendingBytes, ByteLen(q.items[0])));
      Counted(rest, rcvd)
  {
    PoppedFolds(q.items);
    if q.closeQueued {
      assert q.items[1..][..|q.items| - 2] == q.items[..|q.items| - 1][1..];
    }
  }

  lemma PoppedRead(ch: Chan, read: seq<Packet>, delivered: seq<Packet>, item: Packet)
    requires ReadInv(ch.app, read, delivered)
    ensures ReadInv(ch.app.Push(Item(item)), read, delivered + [item])
  {
    ContentsAppend(ch.app.buffer, Item(item));
    if ch.app.readerOpen {
      assert read + (Contents(ch.app.buffer) + [item]) == read + Contents(ch.app.buffer) + [item];
    }
  }

  /** The head item left the queue for the buffer; `t` also carries the grant. */
  lemma RecvPopped(e: Endpoint, t: Endpoint)
    requires RecvInv(e) && e.chan.inbound.Some? && e.chan.app.readerOpen && !e.chan.inbound.value.items[0].Close?
    requires t.chan == Popped(e.chan, e.chan.inbound.value, t.chan.entry)
    requires t.log == e.log.(sent := t.log.sent, delivered := e.log.delivered + [e.chan.inbound.value.items[0]])
    requires t.chan.entry.Some? ==> e.chan.entry.Some? && t.chan.entry.value.confirmed
    requires CreditInv(CreditOf(t))
    ensures RecvInv(t)
  {
    var q := e.chan.inbound.value;
    PoppedCounted(q, e.log.rcvd);
    PoppedRead(e.chan, e.log.read, e.log.delivered, q.items[0]);
    assert e.log.delivered + [q.items[0]] + q.items[1..] == e.log.delivered + q.items;
  }

  lemma PoppedCredit(e: Endpoint, t: Endpoint)
    requires RecvInv(e) && e.chan.inbound.Some? && !e.chan.inbound.value.items[0].Close?
    requires t.chan.config == e.chan.config && t.log.rcvd == e.log.rcvd && t.log.stalled == e.log.stalled
    requires PendingBytes(t.chan.inbound) == PoppedBytes(e.chan.inbound.value)
    requires
      var q := e.chan.inbound.value;
      var g := if q.items[0].Data? then Outbound.Grant(e.chan.entry, e.chan.config.window, Min(PoppedBytes(q), U32_MAX))
               else Outbound.Emitted(e.chan.entry, []);
      t.chan.entry == g.entry && t.log.sent == e.log.sent + g.out
    ensures CreditInv(CreditOf(t))
  {
    var q := e.chan.inbound.value;
    if q.items[0].Data? {
      GrantKeepsCredit(e.chan.entry, e.chan.config.window, PoppedBytes(q), Grants(e.log.sent),
                       DataLength(e.log.rcvd), e.log.stalled);
      GrantsConcat(e.log.sent, Outbound.Grant(e.chan.entry, e.chan.config.window, Min(PoppedBytes(q), U32_MAX)).out);
    } else {
      assert e.log.sent + [] == e.log.sent;
    }
  }

  /** A resolved reservation that hands over an item other than CLOSE. */
  lemma RecvResolveItem(e: Endpoint)
    requires RecvInv(e) && Enabled(e.chan, Resolve(0)) && e.chan.inbound.Some? && e.chan.app.readerOpen
    requires !e.chan.inbound.value.items[0].Close?
    ensures RecvInv(Record(e, Resolve(0), Pump(e.chan, 0)))
  {
    PumpShape(e.chan);
    var q := e.chan.inbound.value;
    PoppedFolds(q.items);
    assert q.items[1..] == [] ==> PoppedBytes(q) == 0;
    var t := Record(e, Resolve(0), Pump(e.chan, 0));
    PoppedCredit(e, t);
    RecvPopped(e, t);
  }

  /** A stale reservation resolves without effect. */
  lemma RecvResolveStale(e: Endpoint)
    requires RecvInv(e) && Enabled(e.chan, Resolve(0)) && e.chan.inbound.None?
    ensures RecvInv(Record(e, Resolve(0), Pump(e.chan, 0)))
  {
    assert e.chan.reserves[..0] + e.chan.reserves[1..] == [];
    assert e.log.sent + [] == e.log.sent && e.log.delivered + [] == e.log.delivered;
  }

  /** A reservation that resolves after the reader went away drops the queue. */
  lemma RecvResolveGone(e: Endpoint)
    requires RecvInv(e) && Enabled(e.chan, Resolve(0)) && e.chan.inbound.Some? && !e.chan.app.readerOpen
    ensures RecvInv(Record(e, Resolve(0), Pump(e.chan, 0)))
  {
    assert e.chan.reserves[..0] + e.chan.reserves[1..] == [];
    assert e.log.sent + [] == e.log.sent && e.log.delivered + [] == e.log.delivered;
  }

  /** A queued CLOSE is the last item of its queue. */
  lemma CloseIsLast(q: Queue, rcvd: seq<Packet>)
    requires Counted(q, rcvd) && q.items != [] && q.items[0].Close?
    ensures q.items == [Close] && EndsWithClose(rcvd)
  {
    assert |q.items| == 1;
  }

  lemma PumpClose(ch: Chan)
    requires Reserved(ch) && ch.inbound.Some? && ch.app.readerOpen && ch.inbound.value.items == [Close]
    ensures Pump(ch, 0)
         == Effect(FinalizeClose(ch.(reserves := [], app := ch.app.Push(Item(Close)))), [], [Close], true)
  {
    assert ch.reserves[..0] + ch.reserves[1..] == [];
  }

  /** A resolved reservation that hands over CLOSE: the queue ends there, and the channel with it. */
  lemma RecvResolveClose(e: Endpoint)
    requires RecvInv(e) && Enabled(e.chan, Resolve(0)) && e.chan.inbound.Some? && e.chan.app.readerOpen
    requires e.chan.inbound.value.items[0].Close?
    ensures RecvInv(Record(e, Resolve(0), Pump(e.chan, 0)))
  {
    CloseIsLast(e.chan.inbound.value, e.log.rcvd);
    PumpClose(e.chan);
    assert e.log.sent + [] == e.log.sent;
    assert e.log.delivered + [Close] + [] == e.log.delivered + [Close];
    PoppedRead(e.chan, e.log.read, e.log.delivered, Close);
    RecvTornDown(e, Record(e, Resolve(0), Pump(e.chan, 0)));
  }

  // ---------------------------------------------------------- application steps

  lemma TakenRead(app: App, read: seq<Packet>, delivered: seq<Packet>)
    requires ReadInv(app, read, delivered) && app.readerOpen && app.buffer != []
    ensures ReadInv(app.(buffer := app.buffer[1..]),
                    if app.buffer[0].Item? then read + [app.buffer[0].packet] else read, delivered)
  {
    var b := app.buffer;
    if b[0].Item? {
      Assoc(read, [b[0].packet], Contents(b[1..]));
    }
  }

  lemma RecvRead(e: Endpoint)
    requires RecvInv(e) && Enabled(e.chan, AppRead)
    ensures RecvInv(Record(e, AppRead, TakeMessage(e.chan)))
  {
    TakenRead(e.chan.app, e.log.read, e.log.delivered);
    RecvTaken(e, Record(e, AppRead, TakeMessage(e.chan)));
  }

  lemma RecvTaken(e: Endpoint, t: Endpoint)
    requires RecvInv(e)
    requires t.chan == e.chan.(app := e.chan.app.(buffer := t.chan.app.buffer))
    requires t.log == e.log.(sent := e.log.sent + [], delivered := e.log.delivered + [], read := t.log.read)
    requires ReadInv(t.chan.app, t.log.read, e.log.delivered)
    ensures RecvInv(t)
  {
    assert e.log.sent + [] == e.log.sent && e.log.delivered + [] == e.log.delivered;
  }

  lemma RecvDropReader(e: Endpoint)
    requires RecvInv(e)
    ensures RecvInv(Record(e, AppDropReader, DropReader(e.chan)))
  {
    assert e.log.sent + [] == e.log.sent && e.log.delivered + [] == e.log.delivered;
  }

  /** Steps of the sending half that keep the receiving fields of the entry. */
  lemma RecvOutbound(e: Endpoint, t: Endpoint)
    requires RecvInv(e)
    requires t.chan == e.chan.(entry := t.chan.entry, rekeying := t.chan.rekeying)
    requires t.log == e.log.(sent := t.log.sent, submitted := t.log.submitted)
    requires Grants(t.log.sent) == Grants(e.log.sent)
    requires t.chan.entry.Some? ==> e.chan.entry.Some? && t.chan.entry.value.confirmed
                                    && t.chan.entry.value.senderWindow == e.chan.entry.value.senderWindow
    ensures RecvInv(t)
  {
  }

  /** A local teardown cuts delivery short. */
  lemma RecvFinalized(e: Endpoint, t: Endpoint)
    requires RecvInv(e)
    requires t.chan == FinalizeClose(e.chan.(entry := t.chan.entry))
    requires t.log == e.log.(sent := t.log.sent, submitted := t.log.submitted, cut := t.log.cut)
    requires Grants(t.log.sent) == Grants(e.log.sent)
    requires t.log.cut == (e.log.cut || e.chan.app.present)
    ensures RecvInv(t)
  {
    RecvTornDown(e, t);
  }
}
