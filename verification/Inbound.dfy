/**
 Non-blocking inbound delivery for one channel (russh/src/pending_inbound.rs): an
 item goes straight into the bounded application buffer, or queues behind a
 single outstanding reservation when that buffer is full.
 */
module Inbound {
  import opened Common
  import opened Protocol

  /** `InboundQueue`; its items are data, EOF and CLOSE packets. */
  datatype Queue = Queue(
    items: seq<Packet>,
    pendingBytes: nat,
    generation: nat,
    reserving: bool,
    eofQueued: bool,
    closeQueued: bool)

  const DEFAULT_QUEUE := Queue([], 0, 0, false, false, false)

  datatype Message = Item(packet: Packet) | WindowAdjusted(size: nat)

  /**
   The application side of a channel: whether the session still holds its sender,
   whether the reader still exists, and the bounded buffer between them.
   */
  datatype App = App(present: bool, readerOpen: bool, capacity: nat, buffer: seq<Message>) {
    /** `try_send` succeeds. */
    predicate HasRoom() {
      present && readerOpen && |buffer| < capacity
    }

    function Push(m: Message): App {
      this.(buffer := buffer + [m])
    }
  }

  datatype Outcome = Delivered | Queued | Overflow | ChannelGone

  datatype Delivery = Delivery(app: App, inbound: Option<Queue>, needsReserve: bool, outcome: Outcome)

  /** `InboundItem::byte_len`. */
  function ByteLen(item: Packet): nat {
    if item.Data? then |item.bytes| else 0
  }

  function PendingBytes(inbound: Option<Queue>): nat {
    if inbound.Some? then inbound.value.pendingBytes else 0
  }

  function Items(inbound: Option<Queue>): seq<Packet> {
    if inbound.Some? then inbound.value.items else []
  }

  /** Append an item to a queue and keep its byte count and duplicate guards. */
  function Enqueue(q: Queue, item: Packet): Queue {
    q.(items := q.items + [item],
       pendingBytes := q.pendingBytes + ByteLen(item),
       eofQueued := q.eofQueued || item.Eof?,
       closeQueued := q.closeQueued || item.Close?,
       reserving := true)
  }

  /** `deliver_inbound`. */
  function Deliver(app: App, inbound: Option<Queue>, cap: nat, item: Packet): Delivery
    requires !item.Adjust?
  {
    if item.Data? && item.bytes == [] then
      Delivery(app, inbound, false, Delivered)
    else if inbound.Some? && (inbound.value.items != [] || inbound.value.reserving) then
      var q := inbound.value;
      if (item.Eof? && q.eofQueued) || (item.Close? && q.closeQueued) then
        Delivery(app, inbound, false, Queued)
      else if q.pendingBytes + ByteLen(item) > cap then
        Delivery(app, inbound, false, Overflow)
      else
        Delivery(app, Some(Enqueue(q, item)), !q.reserving, Queued)
    else if !app.present then
      Delivery(app, inbound, false, ChannelGone)
    else if app.HasRoom() then
      Delivery(app.Push(Item(item)), inbound, false, Delivered)
    else if !app.readerOpen then
      Delivery(app, inbound, false, ChannelGone)
    else if PendingBytes(inbound) + ByteLen(item) > cap then
      Delivery(app, inbound, false, Overflow)
    else
      Delivery(app, Some(Enqueue(if inbound.Some? then inbound.value else DEFAULT_QUEUE, item)), true, Queued)
  }

  datatype Drained = Drained(inbound: Option<Queue>, reserves: seq<nat>)

  /** One round of `drain_needs_reserve` for a flagged channel. */
  function Drain(app: App, inbound: Option<Queue>, reserves: seq<nat>): Drained {
    if inbound.None? || !inbound.value.reserving || inbound.value.items == [] then Drained(inbound, reserves)
    else if app.present then Drained(inbound, reserves + [inbound.value.generation])
    else Drained(None, reserves)
  }
}
