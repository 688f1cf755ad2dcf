/**
 A channel number taken into use again (russh/src/pending_inbound.rs, `pump_inbound`
 of russh/src/client/mod.rs). A reservation holds a slot of the mailbox it was made
 for, is found again only by channel number and generation, and outlives its channel.
 A queue starts at generation 0 and takes its generation with it when it goes, so the
 generation never tells two channels of one number apart.
 */
module Reuse {
  import opened Common
  import opened Protocol
  import opened Inbound

  /** An outstanding reservation: the mailbox whose slot it waits for, and its generation. */
  datatype Ticket = Ticket(box: nat, generation: nat)

  /** All mailboxes ever opened under one number, oldest first; `open` says whether the session still holds
      the sender of the newest. */
  datatype Number = Number(cap: nat, boxes: seq<App>, open: bool, inbound: Option<Queue>, tickets: seq<Ticket>)

  datatype Event = Arrive(item: Packet) | Resolve(k: nat) | Read(box: nat) | DropReader(box: nat) | Teardown

  function Newest(n: Number): nat
    requires n.boxes != []
  {
    |n.boxes| - 1
  }

  /** The application end the session sees. */
  function Current(n: Number): App
    requires n.boxes != []
  {
    n.boxes[Newest(n)].(present := n.open)
  }

  /** `finalize_close` and the overflow teardown: queue and sender go, reservations stay. */
  function Closed(n: Number): Number {
    n.(open := false, inbound := None)
  }

  /** `drain_needs_reserve`: the new reservation is for the newest mailbox. */
  function Settled(n: Number): Number
    requires n.boxes != []
  {
    var d := Drain(Current(n), n.inbound, []);
    n.(inbound := d.inbound,
       tickets := n.tickets + if d.reserves == [] then [] else [Ticket(Newest(n), d.reserves[0])])
  }

  /** `deliver_inbound` and the arms around it. */
  function Arrived(n: Number, item: Packet): Number
    requires n.boxes != [] && !item.Adjust?
  {
    var d := Deliver(Current(n), n.inbound, n.cap, item);
    var moved := n.(boxes := n.boxes[Newest(n) := d.app], inbound := d.inbound);
    if d.outcome.Overflow? then Closed(moved) else if d.needsReserve then Settled(moved) else moved
  }

  predicate Enabled(n: Number, ev: Event) {
    && n.boxes != []
    && match ev
       case Arrive(item) => !item.Adjust?
       case Resolve(k) =>
         && k < |n.tickets| && n.tickets[k].box < |n.boxes|
         && var box := n.boxes[n.tickets[k].box];
            box.readerOpen ==> |box.buffer| < box.capacity
       case Read(b) => b < |n.boxes| && n.boxes[b].readerOpen && n.boxes[b].buffer != []
       case DropReader(b) => b < |n.boxes|
       case Teardown => true
  }

  /** A resolved reservation hands an item to its own mailbox. */
  predicate Hands(n: Number, k: nat)
    requires Enabled(n, Resolve(k))
  {
    && n.inbound.Some? && n.inbound.value.generation == n.tickets[k].generation
    && n.boxes[n.tickets[k].box].readerOpen && n.inbound.value.items != []
  }

  /** `pump_inbound`. */
  function Pumped(n: Number, k: nat): Number
    requires Enabled(n, Resolve(k))
  {
    var ticket := n.tickets[k];
    var rest := n.(tickets := n.tickets[..k] + n.tickets[k + 1..]);
    if n.inbound.None? || n.inbound.value.generation != ticket.generation then rest
    else
      var q := n.inbound.value.(reserving := false);
      if !n.boxes[ticket.box].readerOpen then (if q.closeQueued then Closed(rest) else rest.(inbound := None))
      else if q.items == [] then rest.(inbound := Some(q))
      else
        var popped := q.(items := q.items[1..], pendingBytes := SaturatingSub(q.pendingBytes, ByteLen(q.items[0])));
        var moved := rest.(inbound := Some(popped),
                           boxes := n.boxes[ticket.box := n.boxes[ticket.box].Push(Item(q.items[0]))]);
        if q.items[0].Close? then Closed(moved)
        else if popped.items == [] then moved.(inbound := None)
        else Settled(moved.(inbound := Some(popped.(reserving := true))))
  }

  function Next(n: Number, ev: Event): Number
    requires Enabled(n, ev)
  {
    match ev
    case Arrive(item) => Arrived(n, item)
    case Resolve(k) => Pumped(n, k)
    case Read(b) => n.(boxes := n.boxes[b := n.boxes[b].(buffer := n.boxes[b].buffer[1..])])
    case DropReader(b) => n.(boxes := n.boxes[b := n.boxes[b].(readerOpen := false, buffer := [])])
    case Teardown => Closed(n)
  }

  predicate Runs(n: Number, evs: seq<Event>, m: Number)
    decreases |evs|
  {
    if evs == [] then n == m else Enabled(n, evs[0]) && Runs(Next(n, evs[0]), evs[1..], m)
  }

  /** The number is given to a new channel. */
  function Reopened(n: Number, capacity: nat): Number {
    n.(boxes := n.boxes + [App(true, true, capacity, [])], open := true)
  }

  // ------------------------------------------------------------------- invariant

  predicate Sized(box: App) {
    1 <= box.capacity && |box.buffer| <= box.capacity
  }

  /** Generations are all 0, reservations are for mailboxes that exist, mailboxes keep to their capacity,
      and there is no queue without a sender. */
  predicate Inv(n: Number) {
    && n.boxes != []
    && (forall b :: 0 <= b < |n.boxes| ==> Sized(n.boxes[b]))
    && (forall k :: 0 <= k < |n.tickets| ==> n.tickets[k].generation == 0 && n.tickets[k].box < |n.boxes|)
    && (n.inbound.Some? ==> n.inbound.value.generation == 0 && n.open)
  }

  /** Reservations left over from earlier channels can no longer hand anything over. */
  predicate NoneHands(n: Number)
    requires Inv(n)
  {
    forall k :: 0 <= k < |n.tickets| ==> n.tickets[k].box == Newest(n) || !n.boxes[n.tickets[k].box].readerOpen
  }

  /** No reservation is left over from an earlier channel. */
  predicate OwnOnly(n: Number)
    requires Inv(n)
  {
    forall k :: 0 <= k < |n.tickets| ==> n.tickets[k].box == Newest(n)
  }

  /** What every step keeps. */
  predicate Kept(n: Number, m: Number)
    requires Inv(n)
  {
    && Inv(m) && m.cap == n.cap && |m.boxes| == |n.boxes|
    && (NoneHands(n) ==> NoneHands(m)) && (OwnOnly(n) ==> OwnOnly(m))
  }

  /** A delivery keeps the mailbox to its capacity and the queue to its generation. */
  lemma DeliverKeeps(app: App, inbound: Option<Queue>, cap: nat, item: Packet)
    requires !item.Adjust? && Sized(app)
    ensures
      var d := Deliver(app, inbound, cap, item);
      && Sized(d.app) && d.app.readerOpen == app.readerOpen
      && (d.inbound.Some? ==> d.inbound.value.generation == if inbound.Some? then inbound.value.generation else 0)
      && (d.inbound.Some? && inbound.None? ==> app.present)
  {
  }

  lemma SettledKeeps(n: Number)
    requires Inv(n)
    ensures Kept(n, Settled(n)) && Settled(n).boxes == n.boxes
  {
  }

  lemma ArrivedKeeps(n: Number, item: Packet)
    requires Inv(n) && !item.Adjust?
    ensures Kept(n, Arrived(n, item))
  {
    DeliverKeeps(Current(n), n.inbound, n.cap, item);
    var d := Deliver(Current(n), n.inbound, n.cap, item);
    var moved := n.(boxes := n.boxes[Newest(n) := d.app], inbound := d.inbound);
    assert Kept(n, moved);
    SettledKeeps(moved);
  }

  lemma TicketGone(n: Number, k: nat)
    requires Inv(n) && k < |n.tickets|
    ensures Kept(n, n.(tickets := n.tickets[..k] + n.tickets[k + 1..]))
  {
  }

  lemma ItemHanded(n: Number, box: nat, item: Packet, q: Queue)
    requires Inv(n) && n.inbound.Some? && box < |n.boxes| && |n.boxes[box].buffer| < n.boxes[box].capacity
    requires q.generation == 0
    ensures Kept(n, n.(inbound := Some(q), boxes := n.boxes[box := n.boxes[box].Push(Item(item))]))
  {
  }

  lemma PumpedKeeps(n: Number, k: nat)
    requires Inv(n) && Enabled(n, Resolve(k))
    ensures Kept(n, Pumped(n, k))
  {
    var rest := n.(tickets := n.tickets[..k] + n.tickets[k + 1..]);
    TicketGone(n, k);
    if n.inbound.Some? && n.boxes[n.tickets[k].box].readerOpen && n.inbound.value.items != [] {
      var q := n.inbound.value.(reserving := false);
      var popped := q.(items := q.items[1..], pendingBytes := SaturatingSub(q.pendingBytes, ByteLen(q.items[0])));
      ItemHanded(rest, n.tickets[k].box, q.items[0], popped);
      ItemHanded(rest, n.tickets[k].box, q.items[0], popped.(reserving := true));
      var box := n.tickets[k].box;
      SettledKeeps(rest.(inbound := Some(popped.(reserving := true)), boxes := n.boxes[box := n.boxes[box].Push(Item(q.items[0]))]));
    }
  }

  lemma NextKeeps(n: Number, ev: Event)
    requires Inv(n) && Enabled(n, ev)
    ensures Kept(n, Next(n, ev))
  {
    match ev
    case Arrive(item) => ArrivedKeeps(n, item);
    case Resolve(k) => PumpedKeeps(n, k);
    case _ =>
  }

  lemma {:induction false} RunKeeps(n: Number, evs: seq<Event>, m: Number)
    requires Inv(n) && Runs(n, evs, m)
    ensures Kept(n, m)
    decreases |evs|
  {
    if evs != [] {
      NextKeeps(n, evs[0]);
      RunKeeps(Next(n, evs[0]), evs[1..], m);
    }
  }

  /** The generation check never turns a reservation away: whenever there is a queue, every outstanding
      reservation matches it, whatever channel it was made for. */
  lemma GenerationNeverTells(n: Number, evs: seq<Event>, m: Number, k: nat)
    requires Inv(n) && Runs(n, evs, m) && k < |m.tickets| && m.inbound.Some?
    ensures m.inbound.value.generation == m.tickets[k].generation
  {
    RunKeeps(n, evs, m);
  }

  // ----------------------------------------------------------------- misdelivery

  /** An item of the open channel goes into the mailbox of an earlier one. */
  predicate Misdelivers(n: Number, k: nat) {
    Enabled(n, Resolve(k)) && Hands(n, k) && n.tickets[k].box != Newest(n)
  }

  /** A reservation of an earlier channel does more than go away: it changes the queue, a mailbox or the
      presence of the open channel. */
  predicate Disturbs(n: Number, k: nat) {
    && Enabled(n, Resolve(k)) && n.tickets[k].box != Newest(n)
    && Next(n, Resolve(k)) != n.(tickets := n.tickets[..k] + n.tickets[k + 1..])
  }

  /** Until the number is reopened again, no item goes astray. */
  ghost predicate NothingAstray(n: Number) {
    forall evs: seq<Event>, m: Number, k: nat :: Runs(n, evs, m) ==> !Misdelivers(m, k)
  }

  /** Until the number is reopened again, no earlier channel's reservation changes anything. */
  ghost predicate Undisturbed(n: Number) {
    forall evs: seq<Event>, m: Number, k: nat :: Runs(n, evs, m) ==> !Disturbs(m, k)
  }

  const BYTE: Packet := Data(Main, [0])

  lemma RunsOne(n: Number, ev: Event, evs: seq<Event>, m: Number)
    requires Enabled(n, ev) && Runs(Next(n, ev), evs, m)
    ensures Runs(n, [ev] + evs, m)
  {
    assert ([ev] + evs)[1..] == evs;
  }

  /** One more byte for a channel with nothing queued: into the buffer if there is room, else into the queue. */
  lemma ByteArrives(n: Number)
    requires Inv(n) && n.open && Current(n).readerOpen && n.inbound.None? && n.cap >= 1
    ensures
      var m := Arrived(n, BYTE);
      if Current(n).HasRoom() then
        m == n.(boxes := n.boxes[Newest(n) := Current(n).Push(Item(BYTE))])
      else
        && m.boxes == n.boxes[Newest(n) := Current(n)]
        && m.inbound == Some(Enqueue(DEFAULT_QUEUE, BYTE))
        && m.tickets == n.tickets + [Ticket(Newest(n), 0)] && m.open && m.cap == n.cap
  {
    assert Enqueue(DEFAULT_QUEUE, BYTE).items == [BYTE];
  }

  /** Bytes arrive until the newest mailbox is full and one of them waits. */
  lemma {:induction false} FillsUp(n: Number) returns (evs: seq<Event>, m: Number)
    requires Inv(n) && n.open && Current(n).readerOpen && n.inbound.None? && n.cap >= 1
    ensures Runs(n, evs, m) && m.inbound == Some(Enqueue(DEFAULT_QUEUE, BYTE))
    ensures |m.boxes| == |n.boxes| && m.tickets == n.tickets + [Ticket(Newest(n), 0)] && m.boxes[Newest(n)].readerOpen
    ensures forall b :: 0 <= b < Newest(n) ==> m.boxes[b] == n.boxes[b]
    decreases Current(n).capacity - |Current(n).buffer|
  {
    var step := Next(n, Arrive(BYTE));
    ByteArrives(n);
    NextKeeps(n, Arrive(BYTE));
    if Current(n).HasRoom() {
      var rest: seq<Event>;
      rest, m := FillsUp(step);
      RunsOne(n, Arrive(BYTE), rest, m);
      evs := [Arrive(BYTE)] + rest;
    } else {
      m := step;
      RunsOne(n, Arrive(BYTE), [], m);
      evs := [Arrive(BYTE)] + [];
    }
  }

  /** The mailbox of an old reservation has room, at the latest after its reader took a message. */
  lemma MakesRoom(n: Number, k: nat) returns (evs: seq<Event>, m: Number)
    requires Inv(n) && k < |n.tickets| && n.boxes[n.tickets[k].box].readerOpen
    ensures Runs(n, evs, m) && m == n.(boxes := m.boxes) && |m.boxes| == |n.boxes|
    ensures Enabled(m, Resolve(k)) && m.boxes[n.tickets[k].box].readerOpen
  {
    var b := n.tickets[k].box;
    if |n.boxes[b].buffer| < n.boxes[b].capacity {
      evs, m := [], n;
    } else {
      m := Next(n, Read(b));
      RunsOne(n, Read(b), [], m);
      evs := [Read(b)] + [];
    }
  }

  lemma {:induction false} RunsJoined(n: Number, evs: seq<Event>, m: Number, more: seq<Event>, p: Number)
    requires Runs(n, evs, m) && Runs(m, more, p)
    ensures Runs(n, evs + more, p)
    decreases |evs|
  {
    if evs == [] {
      assert evs + more == more;
    } else {
      RunsJoined(Next(n, evs[0]), evs[1..], m, more, p);
      RunsOne(n, evs[0], evs[1..] + more, p);
      assert evs + more == [evs[0]] + (evs[1..] + more);
    }
  }

  /** A reservation of an earlier channel whose reader is still there takes an item of the new one. */
  lemma GoesAstray(n: Number, k: nat) returns (evs: seq<Event>, m: Number)
    requires Inv(n) && n.open && Current(n).readerOpen && n.inbound.None? && n.cap >= 1
    requires k < |n.tickets| && n.tickets[k].box != Newest(n) && n.boxes[n.tickets[k].box].readerOpen
    ensures Runs(n, evs, m) && Misdelivers(m, k)
    ensures |m.boxes| == |Next(m, Resolve(k)).boxes| == |n.boxes|
    ensures Next(m, Resolve(k)).boxes[n.tickets[k].box] == m.boxes[n.tickets[k].box].Push(Item(BYTE))
  {
    var first, full := FillsUp(n);
    RunKeeps(n, first, full);
    var second: seq<Event>;
    second, m := MakesRoom(full, k);
    RunsJoined(n, first, full, second, m);
    evs := first + second;
    HandsByte(m, k);
  }

  lemma HandsByte(n: Number, k: nat)
    requires Enabled(n, Resolve(k)) && n.tickets[k].generation == 0 && n.inbound == Some(Enqueue(DEFAULT_QUEUE, BYTE))
    requires n.boxes[n.tickets[k].box].readerOpen
    ensures Hands(n, k)
    ensures
      var box := n.tickets[k].box;
      Next(n, Resolve(k)).boxes == n.boxes[box := n.boxes[box].Push(Item(BYTE))]
  {
    assert Enqueue(DEFAULT_QUEUE, BYTE).items == [BYTE];
  }

  /** A reservation of an earlier channel whose reader is gone drops the queue of the new one: the byte that
      waited is in no mailbox and no queue any more. */
  lemma GetsLost(n: Number, k: nat) returns (evs: seq<Event>, m: Number)
    requires Inv(n) && n.open && Current(n).readerOpen && n.inbound.None? && n.cap >= 1
    requires k < |n.tickets| && n.tickets[k].box != Newest(n) && !n.boxes[n.tickets[k].box].readerOpen
    ensures Runs(n, evs, m) && Disturbs(m, k)
    ensures m.open && Current(m).readerOpen && Items(m.inbound) == [BYTE]
    ensures Next(m, Resolve(k)).inbound.None? && Next(m, Resolve(k)).boxes == m.boxes
  {
    evs, m := FillsUp(n);
    RunKeeps(n, evs, m);
    assert Enqueue(DEFAULT_QUEUE, BYTE).items == [BYTE];
  }

  /** No item of the new channel can go to another channel's mailbox if and only if every reservation still
      in flight belongs to a reader that is gone. */
  lemma AstrayIff(n: Number, capacity: nat)
    requires Inv(n) && !n.open && n.inbound.None? && capacity >= 1 && n.cap >= 1
    ensures NothingAstray(Reopened(n, capacity)) <==>
      forall k :: 0 <= k < |n.tickets| ==> !n.boxes[n.tickets[k].box].readerOpen
  {
    var next := Reopened(n, capacity);
    assert Inv(next);
    if k: nat :| k < |n.tickets| && n.boxes[n.tickets[k].box].readerOpen {
      var evs, m := GoesAstray(next, k);
    } else {
      forall evs: seq<Event>, m: Number, k: nat | Runs(next, evs, m)
        ensures !Misdelivers(m, k)
      {
        RunKeeps(next, evs, m);
      }
    }
  }

  /**
   After a channel number was given to a new channel, no reservation of an earlier
   one ever touches the new channel's queue, a mailbox or its presence, in any run,
   if and only if none was in flight.
   */
  lemma ReuseIff(n: Number, capacity: nat)
    requires Inv(n) && !n.open && n.inbound.None? && capacity >= 1 && n.cap >= 1
    ensures Undisturbed(Reopened(n, capacity)) <==> n.tickets == []
  {
    var next := Reopened(n, capacity);
    assert Inv(next);
    if n.tickets == [] {
      forall evs: seq<Event>, m: Number, k: nat | Runs(next, evs, m)
        ensures !Disturbs(m, k)
      {
        RunKeeps(next, evs, m);
      }
    } else if n.boxes[n.tickets[0].box].readerOpen {
      var evs, m := GoesAstray(next, 0);
      assert Disturbs(m, 0);
    } else {
      var evs, m := GetsLost(next, 0);
    }
  }

  // --------------------------------------------------------- from the first channel

  /** A number in use for the first time. */
  function First(cap: nat, capacity: nat): Number {
    Number(cap, [App(true, true, capacity, [])], true, None, [])
  }

  /** A byte waits behind a full mailbox and the channel closes: its reservation stays. */
  lemma LeavesReservation() returns (evs: seq<Event>, closed: Number)
    ensures Runs(First(1, 1), evs, closed) && Inv(closed) && closed.cap == 1
    ensures !closed.open && closed.inbound.None? && |closed.boxes| == 1 && closed.boxes[0].readerOpen
    ensures closed.tickets == [Ticket(0, 0)]
  {
    var start := First(1, 1);
    var fill, full := FillsUp(start);
    RunKeeps(start, fill, full);
    closed := Next(full, Teardown);
    NextKeeps(full, Teardown);
    RunsOne(full, Teardown, [], closed);
    RunsJoined(start, fill, full, [Teardown] + [], closed);
    evs := fill + ([Teardown] + []);
  }

  /** Such states are reachable: the number is given away, and the next channel's first waiting byte goes to
      the old reader. */
  lemma AstrayExists() returns (evs: seq<Event>, closed: Number, more: seq<Event>, m: Number)
    ensures Runs(First(1, 1), evs, closed) && !closed.open && Runs(Reopened(closed, 1), more, m)
    ensures Misdelivers(m, 0)
  {
    evs, closed := LeavesReservation();
    more, m := GoesAstray(Reopened(closed, 1), 0);
  }

  /** The same with a reader that leaves before the number is given away: the byte is lost. */
  lemma LostExists() returns (evs: seq<Event>, closed: Number, more: seq<Event>, m: Number)
    ensures Runs(First(1, 1), evs, closed) && !closed.open && Runs(Reopened(closed, 1), more, m)
    ensures Disturbs(m, 0) && m.open && Current(m).readerOpen && Items(m.inbound) == [BYTE]
    ensures Next(m, Resolve(0)).inbound.None? && Next(m, Resolve(0)).boxes == m.boxes
  {
    var first, left := LeavesReservation();
    closed := Next(left, DropReader(0));
    NextKeeps(left, DropReader(0));
    RunsOne(left, DropReader(0), [], closed);
    RunsJoined(First(1, 1), first, left, [DropReader(0)] + [], closed);
    evs := first + ([DropReader(0)] + []);
    more, m := GetsLost(Reopened(closed, 1), 0);
  }
}
