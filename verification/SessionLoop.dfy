/**
 The client session as it runs (russh/src/client/mod.rs, client/encrypted.rs,
 client/session.rs): one map per concern, keyed by channel number. Every step is
 proved to act on its own channel exactly as the functions of `Channel` say and to
 leave every other channel alone.
 */
module SessionLoop {
  import opened Common
  import opened Protocol
  import opened Wire
  import opened Messages
  import Outbound
  import opened Inbound
  import opened Channel
  import opened Sending
  import opened EncryptedSession

  /** The application's end of a channel: its reader and the bounded buffer. */
  datatype Mailbox = Mailbox(readerOpen: bool, capacity: nat, buffer: seq<Message>)

  /** An outstanding `reserve_owned` future. */
  datatype Reserve = Reserve(id: nat, generation: nat)

  const NOBODY := Mailbox(false, 0, [])

  function BoxOf(mailboxes: map<nat, Mailbox>, id: nat): Mailbox {
    if id in mailboxes then mailboxes[id] else NOBODY
  }

  function AppOf(channels: set<nat>, mailboxes: map<nat, Mailbox>, id: nat): App {
    var m := BoxOf(mailboxes, id);
    App(id in channels, m.readerOpen, m.capacity, m.buffer)
  }

  function QueueAt(inbound: map<nat, Queue>, id: nat): Option<Queue> {
    if id in inbound then Some(inbound[id]) else None
  }

  /** The generations of a channel's outstanding reservations, oldest first. */
  function GenerationsOf(reserves: seq<Reserve>, id: nat): seq<nat> {
    if reserves == [] then []
    else (if reserves[0].id == id then [reserves[0].generation] else []) + GenerationsOf(reserves[1..], id)
  }

  lemma {:induction false} GenerationsConcat(a: seq<Reserve>, b: seq<Reserve>, id: nat)
    ensures GenerationsOf(a + b, id) == GenerationsOf(a, id) + GenerationsOf(b, id)
  {
    if a == [] {
      assert a + b == b;
    } else {
      GenerationsConcat(a[1..], b, id);
      assert (a + b)[1..] == a[1..] + b;
      Assoc(if a[0].id == id then [a[0].generation] else [], GenerationsOf(a[1..], id), GenerationsOf(b, id));
    }
  }

  lemma GenerationsPush(reserves: seq<Reserve>, r: Reserve, id: nat)
    ensures GenerationsOf(reserves + [r], id)
         == GenerationsOf(reserves, id) + if r.id == id then [r.generation] else []
  {
    GenerationsConcat(reserves, [r], id);
    assert [r][1..] == [];
  }

  /** How often a channel was flagged. */
  function Flags(ids: seq<nat>, id: nat): nat {
    if ids == [] then 0 else (if ids[0] == id then 1 else 0) + Flags(ids[1..], id)
  }

  lemma {:induction false} FlagsPush(ids: seq<nat>, i: nat, id: nat)
    requires i < |ids|
    ensures Flags(ids[..i + 1], id) == Flags(ids[..i], id) + if ids[i] == id then 1 else 0
    decreases i
  {
    if i == 0 {
      assert ids[..1] == [ids[0]] && ids[..1][1..] == [];
    } else {
      FlagsPush(ids[1..], i - 1, id);
      assert ids[..i + 1][1..] == ids[1..][..i] && ids[..i][1..] == ids[1..][..i - 1];
    }
  }

  lemma FlagsOwn(id: nat)
    ensures forall k :: Flags([id], k) == if k == id then 1 else 0
  {
    assert [id][1..] == [];
  }

  function SettledTimes(ch: Chan, n: nat): Chan {
    if n == 0 then ch else Settle(SettledTimes(ch, n - 1), true)
  }

  lemma SettledOnce(ch: Chan)
    ensures SettledTimes(ch, 0) == ch && SettledTimes(ch, 1) == Settle(ch, true)
  {
    assert SettledTimes(ch, 1) == Settle(SettledTimes(ch, 0), true);
  }

  /** `Channel.AcceptData` for a given delivery. */
  function Accepted(ch: Chan, item: Packet, d: Delivery): Effect {
    var moved := ch.(app := d.app, inbound := d.inbound);
    match d.outcome
    case Queued => Effect(Settle(moved, d.needsReserve), [], [], false)
    case Overflow =>
      var closed := Outbound.CloseDiscarding(ch.entry);
      Effect(moved.(entry := closed.entry, inbound := None, app := d.app.(present := false)), closed.out, [], true)
    case _ =>
      var g := GrantAfterDelivery(moved);
      Effect(moved.(entry := g.entry), g.out, if d.app != ch.app then [item] else [], false)
  }

  lemma DataKeepsRecipient(m: map<nat, Params>, id: nat, stream: Stream, bytes: Bytes, rekeying: bool)
    requires Outbound.DataOp(Lookup(m, id), stream, bytes, rekeying).Ok?
    ensures
      var entry := Outbound.DataOp(Lookup(m, id), stream, bytes, rekeying).value.entry;
      Recipient(Store(m, id, entry), id) == Recipient(m, id)
  {
    if id in m {
      Outbound.DataNoQueueWindow(m[id], bytes, stream, 0);
    }
  }

  /** `Deliver` when nothing is queued yet. */
  function Fast(ch: Chan, item: Packet): Delivery {
    var queue := if ch.inbound.Some? then ch.inbound.value else DEFAULT_QUEUE;
    if !ch.app.present then Delivery(ch.app, ch.inbound, false, ChannelGone)
    else if ch.app.readerOpen && |ch.app.buffer| < ch.app.capacity then
      Delivery(ch.app.Push(Item(item)), ch.inbound, false, Delivered)
    else if !ch.app.readerOpen then Delivery(ch.app, ch.inbound, false, ChannelGone)
    else if queue.pendingBytes + ByteLen(item) > ch.config.maxPendingInbound then Delivery(ch.app, ch.inbound, false, Overflow)
    else Delivery(ch.app, Some(Enqueue(queue, item)), true, Queued)
  }

  lemma FastPath(ch: Chan, item: Packet)
    requires !item.Adjust? && !(item.Data? && item.bytes == [])
    requires !(ch.inbound.Some? && (ch.inbound.value.items != [] || ch.inbound.value.reserving))
    ensures Fast(ch, item) == Deliver(ch.app, ch.inbound, ch.config.maxPendingInbound, item)
  {
  }

  /** An operation on one entry of the channel table leaves the others alone. */
  lemma StoreOne(m: map<nat, Params>, id: nat, entry: Option<Params>)
    ensures Lookup(Store(m, id, entry), id) == entry
    ensures forall k :: k != id ==> Lookup(Store(m, id, entry), k) == Lookup(m, k)
  {
  }

  lemma ReserveMeansQueued(ch: Chan, item: Packet)
    requires !item.Adjust?
    ensures
      var d := Deliver(ch.app, ch.inbound, ch.config.maxPendingInbound, item);
      d.needsReserve ==> d.outcome.Queued?
  {
  }

  /** `Channel.Pump` with the queue at hand: the head goes to the application. */
  function HandedOver(ch: Chan, queue: Queue): Effect
    requires queue.items != []
  {
    var item, tail := queue.items[0], queue.items[1..];
    var popped := queue.(reserving := false, items := tail, pendingBytes := SaturatingSub(queue.pendingBytes, ByteLen(item)));
    var moved := ch.(inbound := Some(popped), app := ch.app.Push(Item(item)));
    if item.Close? then Effect(FinalizeClose(moved), [], [item], true)
    else
      var g := if item.Data? then GrantAfterDelivery(moved) else Outbound.Emitted(moved.entry, []);
      var granted := moved.(entry := g.entry);
      if tail == [] then Effect(granted.(inbound := None), g.out, [item], false)
      else Effect(Settle(granted.(inbound := Some(popped.(reserving := true))), true), g.out, [item], false)
  }

  /** `Channel.Pump` once the reservation has left the list. */
  function Resolved(ch: Chan, generation: nat): Effect {
    if ch.inbound.None? || ch.inbound.value.generation != generation then Effect(ch, [], [], false)
    else
      var q := ch.inbound.value.(reserving := false);
      if !ch.app.readerOpen then
        if q.closeQueued then Effect(FinalizeClose(ch), [], [], true) else Effect(ch.(inbound := None), [], [], false)
      else if q.items == [] then Effect(ch.(inbound := Some(q)), [], [], false)
      else HandedOver(ch, ch.inbound.value)
  }

  lemma PumpIsResolved(ch: Chan, k: nat)
    requires k < |ch.reserves|
    ensures Pump(ch, k) == Resolved(ch.(reserves := Without(ch.reserves, k)), ch.reserves[k])
  {
  }

  class Session {
    const config: Config
    const enc: Encrypted
    var channels: set<nat>
    var mailboxes: map<nat, Mailbox>
    var inbound: map<nat, Queue>
    var needsReserve: seq<nat>
    var reserves: seq<Reserve>
    var outboundAcks: map<nat, seq<nat>>
    var acked: seq<nat>
    var rekeying: bool

    constructor (config: Config)
      ensures Valid() && needsReserve == [] && fresh(enc) && fresh(enc.writer)
      ensures this.config == config && channels == {} && reserves == [] && !rekeying
    {
      this.config := config;
      enc := new Encrypted();
      channels, mailboxes, inbound, needsReserve, reserves := {}, map[], map[], [], [];
      outboundAcks, acked, rekeying := map[], [], false;
    }

    /** A sender held by the session has an application end. */
    ghost predicate Valid()
      reads this
    {
      forall id :: id in channels ==> id in mailboxes
    }

    /** What the session's maps say about one channel. */
    ghost function View(id: nat): Chan
      reads this, enc
    {
      Chan(config, Lookup(enc.channels, id), AppOf(channels, mailboxes, id), QueueAt(inbound, id),
           GenerationsOf(reserves, id), rekeying)
    }

    /** Nothing changed for any channel but `id`. */
    twostate predicate Only(id: nat)
      reads this, enc
    {
      forall k :: k != id ==> View(k) == old(View(k))
    }

    /** This step acted on channel `id` as `f` says, and on no other. */
    twostate predicate Acts(id: nat, f: Effect)
      reads this, enc, enc.writer
    {
      && Valid() && needsReserve == []
      && View(id) == f.chan
      && Only(id)
      && enc.Issued() == old(enc.Issued()) + Addressed(Recipient(old(enc.channels), id), f.out)
      && outboundAcks == (if f.failAcks then old(outboundAcks) - {id} else old(outboundAcks))
      && acked == old(acked)
    }

    /** A step that failed before it changed anything. */
    twostate predicate Unmoved()
      reads this, enc, enc.writer
    {
      && Valid() && needsReserve == [] && (forall k :: View(k) == old(View(k)))
      && enc.Issued() == old(enc.Issued()) && outboundAcks == old(outboundAcks) && acked == old(acked)
    }

    /** `deliver_inbound` for a channel that is already backpressured: stay in line. */
    method QueueBehind(id: nat, item: Packet) returns (outcome: Inbound.Outcome)
      requires Valid() && !item.Adjust? && !(item.Data? && item.bytes == [])
      requires id in inbound && (inbound[id].items != [] || inbound[id].reserving)
      modifies this`inbound, this`needsReserve
      ensures Delivers(id, item, outcome)
    {
      NoneAdded(needsReserve);
      var q := inbound[id];
      if (item.Eof? && q.eofQueued) || (item.Close? && q.closeQueued) {
        return Queued;
      }
      if q.pendingBytes + ByteLen(item) > config.maxPendingInbound {
        return Overflow;
      }
      inbound := inbound[id := Enqueue(q, item)];
      if !q.reserving {
        needsReserve := needsReserve + [id];
      }
      return Queued;
    }

    /** `deliver_inbound` on the fast path: `try_send`, queueing when the buffer is full. */
    method TrySend(id: nat, item: Packet) returns (outcome: Inbound.Outcome)
      requires Valid() && !item.Adjust? && !(item.Data? && item.bytes == [])
      requires !(id in inbound && (inbound[id].items != [] || inbound[id].reserving))
      modifies this`mailboxes, this`inbound, this`needsReserve
      ensures Delivers(id, item, outcome)
    {
      ghost var before := View(id);
      FastPath(before, item);
      ghost var d: Delivery;
      outcome, d := SendOrPark(id, item);
      assert d == Deliver(before.app, before.inbound, config.maxPendingInbound, item);
    }

    method SendOrPark(id: nat, item: Packet) returns (outcome: Inbound.Outcome, ghost d: Delivery)
      requires Valid()
      modifies this`mailboxes, this`inbound, this`needsReserve
      ensures d == Fast(old(View(id)), item) && MovedTo(id, outcome, d)
    {
      NoneAdded(needsReserve);
      ghost var ch := View(id);
      if id !in channels {
        return ChannelGone, Delivery(ch.app, ch.inbound, false, ChannelGone);
      }
      var box := mailboxes[id];
      if box.readerOpen && |box.buffer| < box.capacity {
        Post(id, Item(item));
        return Delivered, Delivery(ch.app.Push(Item(item)), ch.inbound, false, Delivered);
      }
      if !box.readerOpen {
        return ChannelGone, Delivery(ch.app, ch.inbound, false, ChannelGone);
      }
      var existing := if id in inbound then inbound[id] else DEFAULT_QUEUE;
      if existing.pendingBytes + ByteLen(item) > config.maxPendingInbound {
        return Overflow, Delivery(ch.app, ch.inbound, false, Overflow);
      }
      Park(id, Enqueue(existing, item));
      return Queued, Delivery(ch.app, Some(Enqueue(existing, item)), true, Queued);
    }

    /** The channel went where the delivery `d` says. */
    twostate predicate MovedTo(id: nat, outcome: Inbound.Outcome, d: Delivery)
      reads this, enc
    {
      && Valid() && outcome == d.outcome
      && View(id) == old(View(id)).(app := d.app, inbound := d.inbound)
      && Only(id)
      && needsReserve == old(needsReserve) + (if d.needsReserve then [id] else [])
    }

    /** A queue comes into being and asks for its reservation. */
    method Park(id: nat, q: Queue)
      requires Valid()
      modifies this`inbound, this`needsReserve
      ensures Valid() && Only(id) && needsReserve == old(needsReserve) + [id]
      ensures View(id) == old(View(id)).(inbound := Some(q))
    {
      inbound := inbound[id := q];
      needsReserve := needsReserve + [id];
    }

    /** The item goes into the buffer. */
    method Post(id: nat, m: Message)
      requires Valid() && id in channels
      modifies this`mailboxes
      ensures Valid() && Only(id)
      ensures View(id) == old(View(id)).(app := old(View(id)).app.Push(m))
    {
      mailboxes := mailboxes[id := mailboxes[id].(buffer := mailboxes[id].buffer + [m])];
    }

    /** An item was delivered, queued or refused as `Inbound.Deliver` says. */
    twostate predicate Delivers(id: nat, item: Packet, outcome: Inbound.Outcome)
      reads this, enc
      requires !item.Adjust?
    {
      MovedTo(id, outcome, Deliver(old(View(id)).app, old(View(id)).inbound, config.maxPendingInbound, item))
    }

    /** `deliver_inbound`. */
    method DeliverInbound(id: nat, item: Packet) returns (outcome: Inbound.Outcome)
      requires Valid() && !item.Adjust?
      modifies this`mailboxes, this`inbound, this`needsReserve
      ensures Delivers(id, item, outcome)
    {
      if item.Data? && item.bytes == [] {
        NoneAdded(needsReserve);
        outcome := Delivered;
      } else if id in inbound && (inbound[id].items != [] || inbound[id].reserving) {
        outcome := QueueBehind(id, item);
      } else {
        outcome := TrySend(id, item);
      }
    }

    /** One round of `drain_needs_reserve`. */
    method DrainOne(k: nat)
      requires Valid()
      modifies this`inbound, this`reserves
      ensures Valid() && View(k) == Settle(old(View(k)), true) && Only(k)
    {
      if k in inbound && inbound[k].reserving && inbound[k].items != [] {
        if k in channels {
          forall j {
            GenerationsPush(reserves, Reserve(k, inbound[k].generation), j);
          }
          reserves := reserves + [Reserve(k, inbound[k].generation)];
        } else {
          inbound := inbound - {k};
        }
      }
    }

    /** `drain_needs_reserve`: every channel is settled as often as it was flagged. */
    method DrainNeedsReserve()
      requires Valid()
      modifies this`inbound, this`needsReserve, this`reserves
      ensures Valid() && needsReserve == []
      ensures forall k :: View(k) == SettledTimes(old(View(k)), Flags(old(needsReserve), k))
    {
      var flagged := needsReserve;
      needsReserve := [];
      var i := 0;
      while i < |flagged|
        invariant i <= |flagged| && needsReserve == [] && Valid()
        invariant forall k :: View(k) == SettledTimes(old(View(k)), Flags(flagged[..i], k))
      {
        forall k {
          FlagsPush(flagged, i, k);
        }
        DrainOne(flagged[i]);
        i := i + 1;
      }
      assert flagged[..i] == flagged;
    }

    /** A step flags at most its own channel. */
    method SettleOwn(ghost id: nat)
      requires Valid() && (needsReserve == [] || needsReserve == [id])
      modifies this`inbound, this`needsReserve, this`reserves
      ensures Valid() && needsReserve == [] && Only(id)
      ensures View(id) == Settle(old(View(id)), old(needsReserve) != [])
    {
      ghost var flagged, before := needsReserve, View(id);
      FlagsOwn(id);
      DrainNeedsReserve();
      SettledOnce(before);
      assert View(id) == SettledTimes(before, Flags(flagged, id));
    }

    /** `consume_recv_window` on the session's channel table. */
    method Charge(id: nat, len: nat)
      modifies enc`channels
      ensures
        var ch := old(View(id));
        View(id) == ch.(entry := if ch.entry.Some? then Some(Outbound.Consume(ch.entry.value, len)) else None)
      ensures Only(id)
    {
      enc.ConsumeRecvWindow(id, len);
    }

    /** `maybe_grant_after_delivery`: what is still queued keeps occupying the window. */
    method GrantAfterDelivery(id: nat)
      modifies enc`write, enc`channels
      ensures
        var g := Channel.GrantAfterDelivery(old(View(id)));
        && View(id) == old(View(id)).(entry := g.entry)
        && enc.Issued() == old(enc.Issued()) + Addressed(Recipient(old(enc.channels), id), g.out)
      ensures Only(id)
    {
      var undelivered := if id in inbound then Min(inbound[id].pendingBytes, U32_MAX) else 0;
      var _ := enc.MaybeGrantRecvWindow(id, config.window, undelivered);
    }

    /** `discard_channel_outbound`: CLOSE now, and fail whoever waits for the backlog. */
    method DiscardChannelOutbound(id: nat)
      modifies enc`write, enc`channels, this`outboundAcks
      ensures View(id) == old(View(id)).(entry := None) && Only(id)
      ensures enc.Issued() == old(enc.Issued())
        + Addressed(Recipient(old(enc.channels), id), Outbound.CloseDiscarding(old(View(id)).entry).out)
      ensures outboundAcks == old(outboundAcks) - {id}
    {
      enc.CloseDiscardingPending(id);
      outboundAcks := outboundAcks - {id};
    }

    /** `finalize_close`: the channel leaves all four maps. */
    method FinalizeClose(id: nat)
      requires Valid()
      modifies this`inbound, this`channels, this`outboundAcks, enc`channels
      ensures Valid() && View(id) == Channel.FinalizeClose(old(View(id))) && Only(id)
      ensures outboundAcks == old(outboundAcks) - {id}
      ensures id !in inbound && id !in channels && id !in outboundAcks && id !in enc.channels
    {
      inbound := inbound - {id};
      channels := channels - {id};
      outboundAcks := outboundAcks - {id};
      enc.channels := enc.channels - {id};
    }

    /** The application side and the inbound queue of a channel are dropped. */
    method DropInbound(id: nat)
      requires Valid()
      modifies this`inbound, this`channels
      ensures Valid() && Only(id)
      ensures View(id) == old(View(id)).(inbound := None, app := old(View(id)).app.(present := false))
    {
      inbound := inbound - {id};
      channels := channels - {id};
    }

    /** What follows the delivery `d` of a data item to a channel that looked like `before`. */
    method FinishData(id: nat, outcome: Inbound.Outcome, ghost item: Packet, ghost before: Chan, ghost d: Delivery)
      requires Valid() && View(id) == before.(app := d.app, inbound := d.inbound) && outcome == d.outcome
      requires needsReserve == (if d.needsReserve then [id] else []) && (d.needsReserve ==> d.outcome.Queued?)
      modifies this, enc`write, enc`channels
      ensures Acts(id, Accepted(before, item, d))
    {
      NoneAdded(enc.Issued());
      match outcome
      case Queued => SettleOwn(id);
      case Overflow =>
        DiscardChannelOutbound(id);
        DropInbound(id);
      case _ => GrantAfterDelivery(id);
    }

    /** Delivery of data whose bytes are already charged. */
    method AcceptData(id: nat, stream: Stream, bytes: Bytes)
      requires Valid() && needsReserve == []
      modifies this, enc`write, enc`channels
      ensures Acts(id, Channel.AcceptData(old(View(id)), stream, bytes))
    {
      ghost var before, item := View(id), Data(stream, bytes);
      ghost var d := Deliver(before.app, before.inbound, config.maxPendingInbound, item);
      ReserveMeansQueued(before, item);
      var outcome := DeliverInbound(id, Data(stream, bytes));
      FinishData(id, outcome, item, before, d);
    }

    /** The CHANNEL_DATA and CHANNEL_EXTENDED_DATA arms. */
    method OnData(id: nat, stream: Stream, bytes: Bytes)
      requires Valid() && needsReserve == []
      modifies this, enc`write, enc`channels
      ensures Acts(id, ReceiveData(old(View(id)), stream, bytes))
    {
      Charge(id, |bytes|);
      AcceptData(id, stream, bytes);
    }

    /** The CHANNEL_EOF arm. */
    method OnEof(id: nat)
      requires Valid() && needsReserve == []
      modifies this
      ensures Acts(id, ReceiveEof(old(View(id))))
    {
      NoneAdded(enc.Issued());
      var _ := DeliverInbound(id, Eof);
      SettleOwn(id);
    }

    /** Our mandatory CLOSE, unless it is already out. */
    method AnswerClose(id: nat)
      modifies enc`write, enc`channels, this`outboundAcks
      ensures View(id) == old(View(id)).(entry := None) && Only(id)
      ensures enc.Issued() == old(enc.Issued())
        + Addressed(Recipient(old(enc.channels), id), Outbound.CloseDiscarding(old(View(id)).entry).out)
      ensures outboundAcks == if id in old(enc.channels) then old(outboundAcks) - {id} else old(outboundAcks)
    {
      NoneAdded(enc.Issued());
      if id in enc.channels {
        DiscardChannelOutbound(id);
      }
    }

    /** The CHANNEL_CLOSE arm. */
    method OnClose(id: nat)
      requires Valid() && needsReserve == []
      modifies this, enc`write, enc`channels
      ensures Acts(id, ReceiveClose(old(View(id))))
    {
      NoneAdded(enc.Issued());
      if id in enc.channels && !enc.channels[id].confirmed {
        return;
      }
      if id !in enc.channels && id !in channels {
        return;
      }
      AnswerClose(id);
      DeliverClose(id);
    }

    /** CLOSE goes to the application; unless it has to wait there, the channel is done. */
    method DeliverClose(id: nat)
      requires Valid() && needsReserve == []
      modifies this, enc`channels
      ensures
        var before := old(View(id));
        var d := Deliver(before.app, before.inbound, config.maxPendingInbound, Close);
        Finishes(id, before, d)
    {
      ghost var before := View(id);
      ReserveMeansQueued(before, Close);
      var outcome := DeliverInbound(id, Close);
      FinishClose(id, outcome, before, Deliver(before.app, before.inbound, config.maxPendingInbound, Close));
    }

    method FinishClose(id: nat, outcome: Inbound.Outcome, ghost before: Chan, ghost d: Delivery)
      requires Valid() && View(id) == before.(app := d.app, inbound := d.inbound) && outcome == d.outcome
      requires needsReserve == (if d.needsReserve then [id] else []) && (d.needsReserve ==> d.outcome.Queued?)
      modifies this, enc`channels
      ensures Finishes(id, before, d)
    {
      if outcome.Queued? {
        SettleOwn(id);
      } else {
        FinalizeClose(id);
      }
    }

    /** The end of the CHANNEL_CLOSE arm after the delivery `d`. */
    twostate predicate Finishes(id: nat, before: Chan, d: Delivery)
      reads this, enc, enc.writer
    {
      var moved := before.(app := d.app, inbound := d.inbound);
      && Valid() && needsReserve == [] && Only(id)
      && View(id) == (if d.outcome.Queued? then Settle(moved, d.needsReserve) else Channel.FinalizeClose(moved))
      && enc.Issued() == old(enc.Issued()) && acked == old(acked)
      && outboundAcks == if d.outcome.Queued? then old(outboundAcks) else old(outboundAcks) - {id}
    }

    /** The CHANNEL_WINDOW_ADJUST arm. */
    method OnWindowAdjust(id: nat, amount: nat, notify: bool) returns (r: Result<bool, Outbound.Error>)
      requires Valid() && needsReserve == []
      modifies this`mailboxes, enc`write, enc`channels, enc.writer
      ensures
        match ReceiveAdjust(old(View(id)), amount, notify)
        case Err(e) =>
          && r.Err? && r.error == e && Valid() && Only(id) && enc.Issued() == old(enc.Issued())
          && var p := old(View(id)).entry.value;
          && View(id) == old(View(id)).(entry := Some(Outbound.AfterFailure(
               p.(recipientWindow := SaturatingAdd(p.recipientWindow, amount)))))
        case Ok(f) => r.Ok? && Acts(id, f)
    {
      NoneAdded(enc.Issued());
      if id !in enc.channels {
        return Ok(false);
      }
      var flushed, newSize := WidenAndFlush(id, amount);
      if flushed.Err? {
        return Err(flushed.error);
      }
      if id in channels && notify && mailboxes[id].readerOpen && |mailboxes[id].buffer| < mailboxes[id].capacity {
        Post(id, WindowAdjusted(newSize));
      }
      return Ok(true);
    }

    /** The window grows and the backlog is replayed; `newSize` is what the application is told. */
    method WidenAndFlush(id: nat, amount: nat) returns (r: Result<bool, Outbound.Error>, newSize: nat)
      requires id in enc.channels
      modifies enc`write, enc`channels, enc.writer
      ensures Only(id)
      ensures
        var p := old(View(id)).entry.value;
        var wide := p.(recipientWindow := SaturatingAdd(p.recipientWindow, amount));
        match Outbound.FlushOp(Some(wide))
        case Err(e) =>
          && r.Err? && r.error == e && enc.Issued() == old(enc.Issued())
          && View(id) == old(View(id)).(entry := Some(Outbound.AfterFailure(wide)))
        case Ok(f) =>
          && r.Ok? && View(id) == old(View(id)).(entry := f.entry)
          && enc.Issued() == old(enc.Issued()) + Addressed(p.recipientChannel, f.out)
          && newSize == SaturatingSub(wide.recipientWindow, DataLength(f.out))
    {
      newSize := SaturatingAdd(enc.channels[id].recipientWindow, amount);
      ghost var wide := enc.channels[id].(recipientWindow := newSize);
      enc.channels := enc.channels[id := enc.channels[id].(recipientWindow := newSize)];
      ghost var before := enc.channels;
      var wrote: nat;
      r, wrote := enc.FlushPending(true, id);
      if r.Ok? {
        StoreOne(before, id, Outbound.FlushOp(Some(wide)).value.entry);
        newSize := SaturatingSub(newSize, wrote);
      }
    }

    /** `enforce_outbound_cap`: a channel over its cap is closed and leaves all four maps. */
    method EnforceOutboundCap(id: nat)
      requires Valid()
      modifies this`inbound, this`channels, this`outboundAcks, enc`write, enc`channels
      ensures Valid() && Only(id)
      ensures
        var ch := old(View(id));
        var over := ch.entry.Some? && Outbound.PendingBytes(ch.entry.value.pending) > config.maxPendingOutbound;
        && View(id) == (if over then Channel.FinalizeClose(ch) else ch)
        && outboundAcks == (if over then old(outboundAcks) - {id} else old(outboundAcks))
        && enc.Issued() == old(enc.Issued())
                           + (if over then Addressed(Recipient(old(enc.channels), id), [Close]) else [])
    {
      NoneAdded(enc.Issued());
      if id !in enc.channels || Outbound.PendingBytes(enc.channels[id].pending) <= config.maxPendingOutbound {
        return;
      }
      DiscardChannelOutbound(id);
      FinalizeClose(id);
    }

    /** `data_with_writer` and `extended_data_with_writer` on the session's channel table. */
    method Send(id: nat, stream: Stream, bytes: Bytes) returns (r: Result<bool, Outbound.Error>)
      modifies enc`write, enc`channels, enc.writer
      ensures
        match Outbound.DataOp(old(View(id)).entry, stream, bytes, rekeying)
        case Err(e) => r.Err? && r.error == e && enc.channels == old(enc.channels) && enc.Issued() == old(enc.Issued())
        case Ok(e) =>
          && r.Ok? && View(id) == old(View(id)).(entry := e.entry) && Only(id)
          && Recipient(enc.channels, id) == Recipient(old(enc.channels), id)
          && enc.Issued() == old(enc.Issued()) + Addressed(Recipient(old(enc.channels), id), e.out)
    {
      ghost var before := enc.channels;
      r := enc.SendData(true, id, stream, bytes, rekeying);
      if r.Ok? {
        DataKeepsRecipient(before, id, stream, bytes, rekeying);
        StoreOne(before, id, Outbound.DataOp(Lookup(before, id), stream, bytes, rekeying).value.entry);
      }
    }

    /** `Session::data` and `Session::extended_data`. */
    method SubmitData(id: nat, stream: Stream, bytes: Bytes) returns (r: Result<bool, Outbound.Error>)
      requires Valid() && needsReserve == []
      modifies this`inbound, this`channels, this`outboundAcks, enc`write, enc`channels, enc.writer
      ensures
        match Channel.SubmitData(old(View(id)), stream, bytes)
        case Err(e) => r.Err? && r.error == e && Unmoved()
        case Ok(f) => r.Ok? && Acts(id, f)
    {
      r := Send(id, stream, bytes);
      if r.Ok? {
        ghost var sent := Outbound.DataOp(old(View(id)).entry, stream, bytes, rekeying).value;
        ghost var to := Recipient(old(enc.channels), id);
        AddressedConcat(to, sent.out, [Close]);
        Assoc(old(enc.Issued()), Addressed(to, sent.out), Addressed(to, [Close]));
        NoneAdded(enc.Issued());
        EnforceOutboundCap(id);
      }
    }

    /** `Session::eof`. */
    method SubmitEof(id: nat)
      requires Valid() && needsReserve == []
      modifies enc`write, enc`channels
      ensures Acts(id, Channel.SubmitEof(old(View(id))))
    {
      enc.SendEof(id);
    }

    /** `Session::close`. */
    method SubmitClose(id: nat)
      requires Valid() && needsReserve == []
      modifies this`inbound, this`channels, this`outboundAcks, enc`write, enc`channels
      ensures Acts(id, Channel.SubmitClose(old(View(id))))
    {
      enc.SendClose(id);
      if id !in enc.channels && id in channels && !mailboxes[id].readerOpen {
        FinalizeClose(id);
      }
    }

    /** The k-th outstanding reservation leaves the list. */
    method TakeReserve(k: nat) returns (r: Reserve)
      requires k < |reserves|
      modifies this`reserves
      ensures r == old(reserves)[k]
      ensures LocalIndex(old(reserves), k) < |old(View(r.id)).reserves|
      ensures old(View(r.id)).reserves[LocalIndex(old(reserves), k)] == r.generation
      ensures View(r.id) == old(View(r.id)).(reserves := Without(old(View(r.id)).reserves, LocalIndex(old(reserves), k)))
      ensures Only(r.id)
    {
      r := reserves[k];
      forall id {
        Removed(reserves, k, id);
      }
      reserves := reserves[..k] + reserves[k + 1..];
    }

    /** `pump_inbound` for the k-th outstanding reservation, resolved now. */
    method PumpInbound(k: nat)
      requires Valid() && needsReserve == [] && k < |reserves|
      modifies this, enc`write, enc`channels
      ensures
        var id := old(reserves)[k].id;
        && LocalIndex(old(reserves), k) < |old(View(id)).reserves|
        && Acts(id, Pump(old(View(id)), LocalIndex(old(reserves), k)))
    {
      ghost var id, i := reserves[k].id, LocalIndex(reserves, k);
      ghost var before := View(id);
      var r := TakeReserve(k);
      PumpIsResolved(before, i);
      ResolveReserve(r.id, r.generation);
    }

    /** `pump_inbound` once the reservation has left the list. */
    method ResolveReserve(id: nat, generation: nat)
      requires Valid() && needsReserve == []
      modifies this, enc`write, enc`channels
      ensures Acts(id, Resolved(old(View(id)), generation))
    {
      NoneAdded(enc.Issued());
      if id !in inbound || inbound[id].generation != generation {
        return;
      }
      if !BoxOf(mailboxes, id).readerOpen {
        if inbound[id].closeQueued {
          FinalizeClose(id);
        } else {
          TeardownInbound(id);
        }
        return;
      }
      if inbound[id].items == [] {
        inbound := inbound[id := inbound[id].(reserving := false)];
        return;
      }
      HandOver(id);
    }

    /** The head of the queue is handed over. */
    method HandOver(id: nat)
      requires Valid() && needsReserve == [] && id in inbound && inbound[id].items != [] && id in mailboxes
      modifies this, enc`write, enc`channels
      ensures Acts(id, HandedOver(old(View(id)), old(inbound)[id]))
    {
      NoneAdded(enc.Issued());
      var item := PopHead(id);
      if item.Close? {
        FinalizeClose(id);
        return;
      }
      if item.Data? {
        GrantAfterDelivery(id);
      }
      Rearm(id);
    }

    /** `teardown_inbound`: the queue goes, and with it its generation. */
    method TeardownInbound(id: nat)
      requires Valid()
      modifies this`inbound
      ensures Valid() && View(id) == old(View(id)).(inbound := None) && Only(id)
    {
      inbound := inbound - {id};
    }

    /** The head item goes into the reserved slot of the application buffer. */
    method PopHead(id: nat) returns (item: Packet)
      requires Valid() && id in inbound && inbound[id].items != [] && id in mailboxes
      modifies this`inbound, this`mailboxes
      ensures Valid() && Only(id)
      ensures
        var q := old(inbound[id]);
        && item == q.items[0]
        && View(id) == old(View(id)).(
             inbound := Some(q.(reserving := false, items := q.items[1..],
                                pendingBytes := SaturatingSub(q.pendingBytes, ByteLen(item)))),
             app := old(View(id)).app.Push(Item(item)))
    {
      var q := inbound[id];
      item := q.items[0];
      inbound := inbound[id := q.(reserving := false, items := q.items[1..],
                                  pendingBytes := SaturatingSub(q.pendingBytes, ByteLen(item)))];
      mailboxes := mailboxes[id := mailboxes[id].(buffer := mailboxes[id].buffer + [Item(item)])];
    }

    /** Ask for the next reservation, or return the channel to the fast path. */
    method Rearm(id: nat)
      requires Valid() && needsReserve == [] && id in inbound
      modifies this`inbound, this`needsReserve, this`reserves
      ensures Valid() && needsReserve == [] && Only(id)
      ensures
        var ch := old(View(id));
        View(id) == if ch.inbound.value.items == [] then ch.(inbound := None)
                    else Settle(ch.(inbound := Some(ch.inbound.value.(reserving := true))), true)
    {
      if inbound[id].items != [] {
        Flag(id);
        SettleOwn(id);
      } else {
        inbound := inbound - {id};
      }
    }

    method Flag(id: nat)
      requires Valid() && needsReserve == [] && id in inbound
      modifies this`inbound, this`needsReserve
      ensures Valid() && needsReserve == [id] && Only(id)
      ensures View(id) == old(View(id)).(inbound := Some(old(View(id)).inbound.value.(reserving := true)))
    {
      inbound := inbound[id := inbound[id].(reserving := true)];
      needsReserve := [id];
    }

    /** `release_outbound_acks`: exactly the producers of channels without a backlog are answered. */
    method ReleaseOutboundAcks() returns (ghost drained: seq<nat>)
      modifies this`outboundAcks, this`acked
      ensures forall id :: id in old(outboundAcks) ==> (id in drained <==> !Waits(id))
      ensures forall id :: id in drained ==> id in old(outboundAcks)
      ensures outboundAcks == map id | id in old(outboundAcks) && Waits(id) :: old(outboundAcks)[id]
      ensures acked == old(acked) + AcksOf(old(outboundAcks), drained)
    {
      drained := [];
      var left := outboundAcks.Keys;
      NoneAdded(acked);
      while left != {}
        invariant left <= outboundAcks.Keys <= old(outboundAcks.Keys)
        invariant forall id :: id in outboundAcks ==> outboundAcks[id] == old(outboundAcks)[id]
        invariant forall id :: id in old(outboundAcks) ==> (id in outboundAcks <==> id in left || Waits(id))
        invariant forall id :: id in old(outboundAcks) ==> (id in drained <==> id !in outboundAcks)
        invariant forall id :: id in drained ==> id in old(outboundAcks)
        invariant acked == old(acked) + AcksOf(old(outboundAcks), drained)
        decreases |left|
      {
        var id :| id in left;
        left := left - {id};
        if !Waits(id) {
          AcksPush(old(outboundAcks), drained, id);
          Assoc(old(acked), AcksOf(old(outboundAcks), drained), outboundAcks[id]);
          acked := acked + outboundAcks[id];
          outboundAcks := outboundAcks - {id};
          drained := drained + [id];
        }
      }
    }

    /** `has_pending_data`. */
    predicate Waits(id: nat)
      reads this, enc
    {
      id in enc.channels && enc.channels[id].pending != []
    }

    /** The `ChannelDataAcked` arm: answer at once, park behind the backlog, or drop. */
    method DataAcked(id: nat, stream: Stream, bytes: Bytes, ack: nat) returns (r: Result<bool, Outbound.Error>)
      requires Valid() && needsReserve == []
      modifies this`inbound, this`channels, this`outboundAcks, this`acked, enc`write, enc`channels, enc.writer
      ensures
        match Channel.SubmitData(old(View(id)), stream, bytes)
        case Err(e) => r.Err? && r.error == e && Unmoved()
        case Ok(f) =>
          && r.Ok? && Valid() && needsReserve == [] && View(id) == f.chan && Only(id)
          && enc.Issued() == old(enc.Issued()) + Addressed(Recipient(old(enc.channels), id), f.out)
          && acked == old(acked) + (if f.chan.entry.Some? && !Waits(id) then [ack] else [])
          && var kept := if f.failAcks then old(outboundAcks) - {id} else old(outboundAcks);
          && var mine := if id in kept then kept[id] else [];
          && outboundAcks == if Waits(id) then kept[id := mine + [ack]] else kept
    {
      r := SubmitData(id, stream, bytes);
      if r.Err? {
        return;
      }
      NoneAdded(acked);
      if id !in enc.channels {
      } else if enc.channels[id].pending != [] {
        var parked := if id in outboundAcks then outboundAcks[id] else [];
        outboundAcks := outboundAcks[id := parked + [ack]];
      } else {
        acked := acked + [ack];
      }
    }

    /** The CHANNEL_OPEN_FAILURE arm: gone from two maps, its producers still parked. */
    method OnOpenFailure(id: nat)
      requires Valid()
      modifies this`channels, enc`channels
      ensures Valid() && Only(id) && outboundAcks == old(outboundAcks)
      ensures View(id) == old(View(id)).(entry := None, app := old(View(id)).app.(present := false))
    {
      enc.channels := enc.channels - {id};
      channels := channels - {id};
    }

    /** Completion of a key re-exchange: every channel replays its backlog. */
    method CompleteRekey(ids: seq<nat>) returns (r: Result<bool, Outbound.Error>)
      requires forall i, j :: 0 <= i < j < |ids| ==> ids[i] != ids[j]
      requires forall id :: id in enc.channels <==> id in ids
      modifies this`rekeying, enc`write, enc`channels, enc.writer
      ensures r.Ok? <==> Progress(ids, old(enc.channels)) == |ids|
      ensures r.Ok? ==> forall id :: EndRekey(old(View(id))).Ok? && View(id) == EndRekey(old(View(id))).value.chan
      ensures r.Err? ==> rekeying == old(rekeying) && enc.channels == FlushAllOp(ids, old(enc.channels)).channels
      ensures enc.Issued() == old(enc.Issued()) + FlushAllOp(ids, old(enc.channels)).out
    {
      r := enc.FlushAllPending(true, ids);
      FlushAllEach(ids, old(enc.channels), 0);
      if r.Ok? {
        assert ids[..|ids|] == ids;
        forall id {
          FlushAllEach(ids, old(enc.channels), id);
        }
        rekeying := false;
      }
    }
  }

  /** Flattened producer lists of the given channels. */
  function AcksOf(acks: map<nat, seq<nat>>, ids: seq<nat>): seq<nat> {
    if ids == [] then [] else (if ids[0] in acks then acks[ids[0]] else []) + AcksOf(acks, ids[1..])
  }

  lemma {:induction false} AcksPush(acks: map<nat, seq<nat>>, ids: seq<nat>, id: nat)
    requires id in acks
    ensures AcksOf(acks, ids + [id]) == AcksOf(acks, ids) + acks[id]
  {
    if ids == [] {
      assert ids + [id] == [id];
      assert [id][1..] == [];
    } else {
      AcksPush(acks, ids[1..], id);
      assert (ids + [id])[1..] == ids[1..] + [id];
      Assoc(if ids[0] in acks then acks[ids[0]] else [], AcksOf(acks, ids[1..]), acks[id]);
    }
  }

  function Without(s: seq<nat>, i: nat): seq<nat>
    requires i < |s|
  {
    s[..i] + s[i + 1..]
  }

  /** The position of the k-th reservation among those of its own channel. */
  function LocalIndex(reserves: seq<Reserve>, k: nat): nat
    requires k < |reserves|
  {
    |GenerationsOf(reserves[..k], reserves[k].id)|
  }

  lemma Removed(reserves: seq<Reserve>, k: nat, id: nat)
    requires k < |reserves|
    ensures
      var i, own := LocalIndex(reserves, k), GenerationsOf(reserves, id);
      var now := GenerationsOf(reserves[..k] + reserves[k + 1..], id);
      && (id == reserves[k].id ==> i < |own| && own[i] == reserves[k].generation && now == Without(own, i))
      && (id != reserves[k].id ==> now == own)
  {
    var a, r, b := reserves[..k], reserves[k], reserves[k + 1..];
    assert reserves == a + [r] + b;
    RemovedParts(a, r, b, id);
    MiddleGone(GenerationsOf(a, id), r.generation, GenerationsOf(b, id));
  }

  lemma RemovedParts(a: seq<Reserve>, r: Reserve, b: seq<Reserve>, id: nat)
    ensures GenerationsOf(a + b, id) == GenerationsOf(a, id) + GenerationsOf(b, id)
    ensures r.id == id ==> GenerationsOf(a + [r] + b, id) == GenerationsOf(a, id) + [r.generation] + GenerationsOf(b, id)
    ensures r.id != id ==> GenerationsOf(a + [r] + b, id) == GenerationsOf(a, id) + GenerationsOf(b, id)
  {
    GenerationsConcat(a + [r], b, id);
    GenerationsPush(a, r, id);
    GenerationsConcat(a, b, id);
    NoneAdded(GenerationsOf(a, id));
  }

  lemma MiddleGone(x: seq<nat>, g: nat, y: seq<nat>)
    ensures |x| < |x + [g] + y| && (x + [g] + y)[|x|] == g
    ensures Without(x + [g] + y, |x|) == x + y
  {
  }
}
