/**
 What becomes of a sender whose peer dropped its reader. While the receiver's window
 is open, arriving data is thrown away and granted for, so the sender goes on; once
 the window was empty when the queue was thrown away, no grant ever follows, and the
 sender is stuck for good.
 */
module Desertion {
  import opened Common
  import opened Protocol
  import Outbound
  import opened Inbound
  import opened Channel
  import opened Endpoint
  import opened Sending
  import opened Receiving
  import opened Discipline
  import opened FlowControl
  import opened Starvation
  import Liveness

  /** Nobody reads any more, and nothing is queued. */
  predicate Deaf(ch: Chan) {
    !ch.app.readerOpen && ch.inbound.None?
  }

  /** ... and no window is left to send into, unless the channel is closed. */
  predicate Deserted(ch: Chan) {
    Deaf(ch) && (ch.entry.Some? ==> ch.entry.value.senderWindow == 0)
  }

  predicate Attended(ch: Chan) {
    Deaf(ch) && (ch.entry.Some? ==> ch.entry.value.senderWindow > 0)
  }

  /** Data that arrives while the channel has an entry. */
  predicate Feeds(e: Endpoint, ev: Event) {
    ev.Receive? && ev.packet.Data? && e.chan.entry.Some?
  }

  /** An item for a deaf channel goes nowhere. */
  lemma DeafDelivery(ch: Chan, item: Packet)
    requires Deaf(ch) && !item.Adjust?
    ensures
      var d := Deliver(ch.app, ch.inbound, ch.config.maxPendingInbound, item);
      d.app == ch.app && d.inbound.None? && !d.needsReserve && (d.outcome.Delivered? || d.outcome.ChannelGone?)
  {
  }

  lemma DeafData(ch: Chan, stream: Stream, bytes: seq<Byte>)
    requires Deaf(ch)
    ensures
      var g := Outbound.Grant(Charged(ch.entry, |bytes|), ch.config.window, 0);
      ReceiveData(ch, stream, bytes) == Effect(ch.(entry := g.entry), g.out, [], false)
  {
    DeafDelivery(ch, Data(stream, bytes));
  }

  lemma DeafEof(ch: Chan)
    requires Deaf(ch)
    ensures ReceiveEof(ch) == Effect(ch, [], [], false)
  {
    DeafDelivery(ch, Eof);
  }

  lemma DeafClose(ch: Chan)
    requires Deaf(ch)
    ensures Deaf(ReceiveClose(ch).chan) && Grants(ReceiveClose(ch).out) == 0
  {
    DeafDelivery(ch, Close);
    CloseOut(ch.entry, []);
    assert [] + Outbound.CloseDiscarding(ch.entry).out == Outbound.CloseDiscarding(ch.entry).out;
  }

  lemma DeafSubmit(e: Endpoint, stream: Stream, bytes: seq<Byte>)
    requires EndpointInv(e) && Deaf(e.chan)
    ensures SubmitData(e.chan, stream, bytes).Ok?
    ensures
      var f := SubmitData(e.chan, stream, bytes).value;
      Deaf(f.chan) && Grants(f.out) == 0
  {
    if e.chan.entry.Some? {
      Outbound.DataOpEntry(e.chan.entry.value, stream, bytes, e.chan.rekeying);
      SubmitShape(e.chan, stream, bytes, SubmitData(e.chan, stream, bytes).value);
    }
  }

  lemma DeafFlush(e: Endpoint, p: Outbound.Params)
    requires EndpointInv(e) && e.chan.entry.Some? && p.recipientMax == e.chan.entry.value.recipientMax
    ensures Outbound.FlushOp(Some(p)).Ok? && Grants(Outbound.FlushOp(Some(p)).value.out) == 0
  {
    FlushFrame(p);
  }

  /** A deaf channel stays deaf, and only arriving data makes it grant anything. */
  lemma DeafStep(e: Endpoint, ev: Event)
    requires EndpointInv(e) && Allowed(e, ev) && Deaf(e.chan) && Step(e.chan, ev).Ok?
    ensures Deaf(Step(e.chan, ev).value.chan)
    ensures !Feeds(e, ev) ==> Grants(Step(e.chan, ev).value.out) == 0
  {
    match ev
    case AppData(stream, bytes) => DeafSubmit(e, stream, bytes);
    case AppEof => ControlFolds(SubmitEof(e.chan).out);
    case AppClose => ControlFolds(SubmitClose(e.chan).out);
    case Receive(Data(stream, bytes), _) => DeafData(e.chan, stream, bytes);
    case Receive(Eof, _) => DeafEof(e.chan);
    case Receive(Close, _) => DeafClose(e.chan);
    case Receive(Adjust(amount), _) =>
      if e.chan.entry.Some? {
        var p := e.chan.entry.value;
        DeafFlush(e, p.(recipientWindow := SaturatingAdd(p.recipientWindow, amount)));
      }
    case RekeyEnd =>
      if e.chan.entry.Some? {
        DeafFlush(e, e.chan.entry.value);
      }
    case _ =>
  }

  /** No entry appears again. */
  lemma EntryFrom(e: Endpoint, ev: Event)
    requires EndpointInv(e) && Allowed(e, ev) && Deaf(e.chan) && Step(e.chan, ev).Ok?
    ensures Step(e.chan, ev).value.chan.entry.Some? ==> e.chan.entry.Some?
  {
    if ev.Receive? && ev.packet.Data? {
      DeafData(e.chan, ev.packet.stream, ev.packet.bytes);
    }
  }

  lemma Folded(e: Endpoint, ev: Event, f: Effect)
    requires Enabled(e.chan, ev)
    ensures Grants(Record(e, ev, f).log.sent) == Grants(e.log.sent) + Grants(f.out)
    ensures !(ev.Receive? && ev.packet.Data?) ==> DataLength(Record(e, ev, f).log.rcvd) == DataLength(e.log.rcvd)
  {
    GrantsConcat(e.log.sent, f.out);
    if ev.Receive? {
      ReceivedFolds(e.log.rcvd, ev.packet);
    }
  }

  /** What a peer's packets look like: data is never empty. */
  predicate Filled(ev: Event) {
    ev.Receive? && ev.packet.Data? ==> ev.packet.bytes != []
  }

  /** With the window empty, nothing that can happen makes a deserted receiver grant again. */
  lemma DesertedStep(e: Endpoint, ev: Event)
    requires EndpointInv(e) && Allowed(e, ev) && Filled(ev) && Deserted(e.chan)
    ensures Step(e.chan, ev).Ok?
    ensures Deserted(Apply(e, ev).chan) && Grants(Apply(e, ev).log.sent) == Grants(e.log.sent)
  {
    StepKeeps(e, ev);
    DeafStep(e, ev);
    EntryFrom(e, ev);
    StepConfig(e.chan, ev);
    var f := Step(e.chan, ev).value;
    Folded(e, ev, f);
    assert !Feeds(e, ev);
  }

  /** With the window open, and at least two bytes wide, it stays open. */
  lemma AttendedStep(e: Endpoint, ev: Event)
    requires EndpointInv(e) && Allowed(e, ev) && Attended(e.chan) && e.chan.config.window >= 2
    ensures Step(e.chan, ev).Ok? && Attended(Apply(e, ev).chan)
  {
    StepKeeps(e, ev);
    DeafStep(e, ev);
    EntryFrom(e, ev);
    StepConfig(e.chan, ev);
    var f := Step(e.chan, ev).value;
    Folded(e, ev, f);
    if Feeds(e, ev) {
      DeafData(e.chan, ev.packet.stream, ev.packet.bytes);
    }
  }

  // ------------------------------------------------------------- over whole runs

  /** What `b` may take off the link is never empty data. */
  lemma LinkFilled(s: Sys, notify: bool)
    requires SysInv(s) && s.ab != []
    ensures Filled(Receive(s.ab[0], notify))
  {
    assert s.a.log.sent[|s.b.log.rcvd|] == s.ab[0];
  }

  /** The step a turn makes of `b`, if it is `b`'s. */
  lemma PeerStep(s: Sys, t: Turn)
    requires SysInv(s) && Ready(s, t) && !t.left
    ensures
      var ev := LeftEvent(Swap(s), t.move);
      Allowed(s.b, ev) && Filled(ev) && Step(s.b.chan, ev).Ok? && Next(s, t).Ok? && Next(s, t).value.b == Apply(s.b, ev)
  {
    if t.move.Take? {
      PeerIsCompliant(Swap(s));
      LinkFilled(s, t.move.notify);
    }
    TurnKeeps(s, t);
  }

  lemma {:induction false} NoGrantFollows(s: Sys, ts: seq<Turn>, t: Sys)
    requires SysInv(s) && Runs(s, ts, t) && Deserted(s.b.chan)
    ensures Deserted(t.b.chan) && Grants(t.b.log.sent) == Grants(s.b.log.sent)
    decreases |ts|
  {
    if ts != [] {
      TurnKeeps(s, ts[0]);
      if !ts[0].left {
        PeerStep(s, ts[0]);
        DesertedStep(s.b, LeftEvent(Swap(s), ts[0].move));
      }
      NoGrantFollows(Next(s, ts[0]).value, ts[1..], t);
    }
  }

  lemma {:induction false} StaysAttended(s: Sys, ts: seq<Turn>, t: Sys)
    requires SysInv(s) && Runs(s, ts, t) && Attended(s.b.chan) && s.b.chan.config.window >= 2
    ensures Attended(t.b.chan)
    decreases |ts|
  {
    if ts != [] {
      TurnKeeps(s, ts[0]);
      if !ts[0].left {
        PeerStep(s, ts[0]);
        AttendedStep(s.b, LeftEvent(Swap(s), ts[0].move));
        StepConfig(s.b.chan, LeftEvent(Swap(s), ts[0].move));
      }
      StaysAttended(Next(s, ts[0]).value, ts[1..], t);
    }
  }

  /** What was sent and submitted only grows. */
  lemma {:induction false} LogGrows(s: Sys, ts: seq<Turn>, t: Sys)
    requires Runs(s, ts, t)
    ensures s.a.log.sent <= t.a.log.sent && s.a.log.submitted <= t.a.log.submitted
    ensures t.a.peer == s.a.peer
    decreases |ts|
  {
    if ts != [] {
      LogGrows(Next(s, ts[0]).value, ts[1..], t);
    }
  }

  /** No data follows in a longer run if none could be paid for. */
  lemma SameData(sent: seq<Packet>, more: seq<Packet>)
    requires sent <= more && DataLength(more) <= DataLength(sent)
    ensures Payloads(more) == Payloads(sent)
  {
    var tail := more[|sent|..];
    assert more == sent + tail;
    PayloadsConcat(sent, tail);
  }

  /**
   For ever: once the receiver is deserted, nothing either side does puts another
   byte of data on the wire, and what is parked stays parked as long as the sender's
   channel is open.
   */
  lemma StuckForEver(s: Sys, ts: seq<Turn>, t: Sys)
    requires SysInv(s) && s.a.chan.entry.Some? && s.b.chan.entry.Some? && Deserted(s.b.chan) && Runs(s, ts, t)
    ensures Payloads(t.a.log.sent) == Payloads(s.a.log.sent)
    ensures Grants(t.b.log.sent) == Grants(s.b.log.sent)
    ensures t.a.chan.entry.Some? ==>
      Outbound.Backlog(s.a.chan.entry.value.pending) <= Outbound.Backlog(t.a.chan.entry.value.pending)
  {
    NoGrantFollows(s, ts, t);
    RunKeeps(s, ts, t);
    LogGrows(s, ts, t);
    NothingToPayWith(s, t);
    SameData(s.a.log.sent, t.a.log.sent);
    if t.a.chan.entry.Some? {
      SameFront(Payloads(s.a.log.sent), Outbound.Backlog(s.a.chan.entry.value.pending),
                Outbound.Backlog(t.a.chan.entry.value.pending));
    }
  }

  /** Without a further grant, the sender has already used up everything it was ever granted. */
  lemma NothingToPayWith(s: Sys, t: Sys)
    requires SysInv(s) && SysInv(t) && s.a.chan.entry.Some? && s.b.chan.entry.Some? && Deserted(s.b.chan)
    requires Grants(t.b.log.sent) == Grants(s.b.log.sent) && t.a.peer == s.a.peer
    ensures DataLength(t.a.log.sent) <= DataLength(s.a.log.sent)
  {
    LinkFolds(s.a.log.sent, s.b.log.rcvd, s.ab);
    LinkFolds(s.b.log.sent, s.a.log.rcvd, s.ba);
    LinkFolds(t.b.log.sent, t.a.log.rcvd, t.ba);
  }

  lemma SameFront(sent: seq<Tagged>, a: seq<Tagged>, b: seq<Tagged>)
    requires sent + a <= sent + b
    ensures a <= b
  {
    assert forall i :: 0 <= i < |a| ==> a[i] == (sent + a)[|sent| + i] && b[i] == (sent + b)[|sent| + i];
  }

  // ------------------------------------------------------------ exactly when

  /** Nothing is on its way and both sides are open. */
  predicate Settled(s: Sys) {
    && s.ab == [] && s.ba == [] && s.b.chan.inbound.None? && !s.a.chan.rekeying
    && s.a.chan.entry.Some? && s.b.chan.entry.Some?
  }

  predicate Stuck(s: Sys) {
    Settled(s) && s.a.chan.entry.value.pending != []
  }

  /** The scheduler can bring the sender to a standstill. */
  ghost predicate CanStarve(s: Sys) {
    exists ts: seq<Turn>, t: Sys :: Runs(s, ts, t) && Stuck(t)
  }

  lemma SettledWindow(s: Sys)
    requires SysInv(s) && Settled(s)
    ensures s.a.chan.entry.value.recipientWindow == s.b.chan.entry.value.senderWindow
    ensures Stuck(s) ==> s.b.chan.entry.value.senderWindow == 0
  {
    LinkFolds(s.a.log.sent, s.b.log.rcvd, s.ab);
    LinkFolds(s.b.log.sent, s.a.log.rcvd, s.ba);
  }

  /** What a service step does to the entry: it goes only when a CLOSE was asked for and the whole backlog
      was sent, and no step asks for a CLOSE. */
  predicate Lasts(ch: Chan, f: Effect)
    requires ch.entry.Some?
  {
    && (f.chan.entry.Some? ==> f.chan.entry.value.pendingClose ==> ch.entry.value.pendingClose)
    && (f.chan.entry.None? ==> ch.entry.value.pendingClose && Payloads(f.out) == Outbound.Backlog(ch.entry.value.pending))
  }

  lemma DataLasts(e: Endpoint, stream: Stream, bytes: seq<Byte>)
    requires RecvInv(e) && Compliant(e, Data(stream, bytes)) && e.chan.entry.Some?
    ensures Lasts(e.chan, ReceiveData(e.chan, stream, bytes))
  {
    NeverOverflows(e, Data(stream, bytes));
    ReceiveDataShape(e.chan, stream, bytes);
  }

  lemma PumpLasts(e: Endpoint)
    requires RecvInv(e) && Enabled(e.chan, Resolve(0)) && e.chan.entry.Some?
    ensures Lasts(e.chan, Pump(e.chan, 0))
  {
    if e.chan.inbound.Some? {
      if e.chan.inbound.value.items[0].Close? {
        CloseIsLast(e.chan.inbound.value, e.log.rcvd);
      } else if e.chan.app.readerOpen {
        PumpShape(e.chan);
      }
    }
  }

  lemma ServiceLasts(e: Endpoint, ev: Event)
    requires EndpointInv(e) && Allowed(e, ev) && e.chan.entry.Some? && Step(e.chan, ev).Ok?
    requires ev.Resolve? || ev.AppRead? || ev.RekeyEnd? || (ev.Receive? && !ev.packet.Close?)
    ensures Lasts(e.chan, Step(e.chan, ev).value)
  {
    var p := e.chan.entry.value;
    match ev
    case Receive(Data(stream, bytes), _) => DataLasts(e, stream, bytes);
    case Receive(Adjust(amount), _) =>
      Outbound.FlushOpEntry(p.(recipientWindow := SaturatingAdd(p.recipientWindow, amount)));
    case Resolve(k) =>
      assert k == 0;
      PumpLasts(e);
    case RekeyEnd => Outbound.FlushOpEntry(p);
    case _ =>
  }

  /** Both sides open, bytes parked in front of a deserted receiver that has not asked to close. */
  predicate Blocked(s: Sys) {
    && s.a.chan.entry.Some? && s.b.chan.entry.Some? && Deserted(s.b.chan)
    && !s.b.chan.entry.value.pendingClose
    && Outbound.PendingBytes(s.a.chan.entry.value.pending) > 0
  }

  /** While both sides are open no CLOSE is on its way. */
  lemma HeadNoClose(s: Sys)
    requires SysInv(s) && s.b.chan.entry.Some? && s.ba != []
    ensures !s.ba[0].Close?
  {
    assert s.b.log.sent[|s.a.log.rcvd|] == s.ba[0];
  }

  lemma LeftLasts(s: Sys, m: Move)
    requires SysInv(s) && LeftReady(s, m) && LeftNext(s, m).Ok? && Liveness.Service(Turn(true, m))
    requires s.a.chan.entry.Some? && s.b.chan.entry.Some?
    ensures Lasts(s.a.chan, Step(s.a.chan, LeftEvent(s, m)).value)
  {
    if m.Take? {
      PeerIsCompliant(s);
      HeadNoClose(s);
    }
    ServiceLasts(s.a, LeftEvent(s, m));
  }

  /** A service turn leaves it so. */
  lemma TurnBlocked(s: Sys, t: Turn)
    requires SysInv(s) && Blocked(s) && Ready(s, t) && Liveness.Service(t)
    ensures Next(s, t).Ok? && SysInv(Next(s, t).value) && Blocked(Next(s, t).value)
  {
    TurnKeeps(s, t);
    var n := Next(s, t).value;
    RunsOne(s, t, [], n);
    StuckForEver(s, [t] + [], n);
    NoGrantFollows(s, [t] + [], n);
    LeftLasts(if t.left then s else Swap(s), t.move);
    if t.left {
      var f := Step(s.a.chan, LeftEvent(s, t.move)).value;
      PayloadsConcat(s.a.log.sent, f.out);
      if f.chan.entry.None? {
        SameFront(Payloads(s.a.log.sent), Payloads(f.out), []);
        assert false;
      }
    }
  }

  lemma {:induction false} ServiceBlocked(s: Sys, ts: seq<Turn>, t: Sys)
    requires SysInv(s) && Blocked(s) && Runs(s, ts, t) && Liveness.AllService(ts)
    ensures SysInv(t) && Blocked(t)
    decreases |ts|
  {
    if ts != [] {
      TurnBlocked(s, ts[0]);
      ServiceBlocked(Next(s, ts[0]).value, ts[1..], t);
    }
  }

  /** Served to the end, a blocked sender stands still. */
  lemma BlockedStarves(s: Sys, ts: seq<Turn>, t: Sys)
    requires SysInv(s) && Blocked(s) && Liveness.AllService(ts) && Runs(s, ts, t) && Liveness.Served(t)
    ensures Stuck(t)
  {
    ServiceBlocked(s, ts, t);
    Liveness.ServedSide(t);
    Liveness.ServedMirrored(t);
    Liveness.ServedSide(Swap(t));
  }

  /** A sender facing an empty window has none itself, so one more byte is parked. */
  lemma OneMoreByte(s: Sys) returns (turn: Turn, t: Sys)
    requires SysInv(s) && s.a.chan.entry.Some? && s.b.chan.entry.Some? && s.b.chan.entry.value.senderWindow == 0
    requires Deaf(s.b.chan) && Outbound.PendingBytes(s.a.chan.entry.value.pending) == 0 && s.a.chan.config.maxPendingOutbound > 0
    ensures Ready(s, turn) && Next(s, turn) == Ok(t) && SysInv(t) && t.b == s.b
    ensures t.a.chan.entry.Some? && Outbound.PendingBytes(t.a.chan.entry.value.pending) == 1
  {
    EmptyWindow(s);
    var one: seq<Byte> := [0];
    ByteParks(s.a.chan, one);
    turn := Turn(true, Own(AppData(Main, one)));
    OwnTurn(s, AppData(Main, one), SubmitData(s.a.chan, Main, one).value);
    TurnKeeps(s, turn);
    t := Next(s, turn).value;
  }

  lemma ByteParks(ch: Chan, one: seq<Byte>)
    requires ch.entry.Some? && ch.entry.value.confirmed && ch.entry.value.recipientMax > 0 && ch.entry.value.recipientWindow == 0
    requires Outbound.PendingBytes(ch.entry.value.pending) == 0 && ch.config.maxPendingOutbound > 0 && |one| == 1
    ensures SubmitData(ch, Main, one).Ok?
    ensures
      var f := SubmitData(ch, Main, one).value;
      f.chan.entry.Some? && Outbound.PendingBytes(f.chan.entry.value.pending) == 1
  {
    Outbound.DataOpEntry(ch.entry.value, Main, one, ch.rekeying);
    Outbound.DataOpPayload(ch.entry.value, Main, one, ch.rekeying);
  }

  lemma EmptyWindow(s: Sys)
    requires SysInv(s) && s.a.chan.entry.Some? && s.b.chan.entry.Some? && Deserted(s.b.chan)
    ensures s.a.chan.entry.value.recipientWindow == 0
  {
    LinkFolds(s.a.log.sent, s.b.log.rcvd, s.ab);
    LinkFolds(s.b.log.sent, s.a.log.rcvd, s.ba);
  }

  /**
   Once the reader is gone and its queue is dropped, whatever is in flight either way
   and whoever is exchanging keys: the sender can be brought to a standstill only if the
   receiver's window is empty at that point, and then always unless the receiver has
   itself asked to close; by `StuckForEver` the standstill is for good.
   */
  lemma StarvesIff(s: Sys)
    requires SysInv(s) && s.a.chan.entry.Some? && s.b.chan.entry.Some? && Deaf(s.b.chan)
    requires s.b.chan.config.window >= 2 && s.a.chan.config.maxPendingOutbound > 0
    ensures CanStarve(s) ==> s.b.chan.entry.value.senderWindow == 0
    ensures !s.b.chan.entry.value.pendingClose ==> (CanStarve(s) <==> s.b.chan.entry.value.senderWindow == 0)
  {
    if s.b.chan.entry.value.senderWindow == 0 {
      if s.b.chan.entry.value.pendingClose {
        return;
      }
      if Outbound.PendingBytes(s.a.chan.entry.value.pending) == 0 {
        var turn, m := OneMoreByte(s);
        var ts, t := Liveness.CanServe(m);
        BlockedStarves(m, ts, t);
        RunsOne(s, turn, ts, t);
      } else {
        var ts, t := Liveness.CanServe(s);
        BlockedStarves(s, ts, t);
      }
    } else {
      forall ts: seq<Turn>, t: Sys | Runs(s, ts, t) && Stuck(t)
        ensures false
      {
        StaysAttended(s, ts, t);
        RunKeeps(s, ts, t);
        SettledWindow(t);
      }
    }
  }

  // ----------------------------------------------------- from the reachable states

  /** A reader dropped in front of queued items is gone. */
  lemma {:induction false} StalledGone(s: Sys, ts: seq<Turn>, t: Sys)
    requires Runs(s, ts, t) && (s.b.log.stalled ==> !s.b.chan.app.readerOpen)
    ensures t.b.log.stalled ==> !t.b.chan.app.readerOpen
    decreases |ts|
  {
    if ts != [] {
      if !ts[0].left {
        ReaderStaysGone(s.b.chan, LeftEvent(Swap(s), ts[0].move));
      }
      StalledGone(Next(s, ts[0]).value, ts[1..], t);
    }
  }

  lemma ReaderStaysGone(ch: Chan, ev: Event)
    requires Enabled(ch, ev) && Step(ch, ev).Ok?
    ensures Step(ch, ev).value.chan.app.readerOpen ==> ch.app.readerOpen && !ev.AppDropReader?
  {
    match ev
    case Receive(Data(stream, bytes), _) => DataKeepsReader(ch, stream, bytes);
    case Receive(Close, _) => CloseKeepsReader(ch);
    case Resolve(k) => PumpKeepsReader(ch, k);
    case _ =>
  }

  lemma DataKeepsReader(ch: Chan, stream: Stream, bytes: seq<Byte>)
    ensures ReceiveData(ch, stream, bytes).chan.app.readerOpen == ch.app.readerOpen
  {
  }

  lemma CloseKeepsReader(ch: Chan)
    ensures ReceiveClose(ch).chan.app.readerOpen == ch.app.readerOpen
  {
  }

  lemma PumpKeepsReader(ch: Chan, k: nat)
    requires k < |ch.reserves|
    ensures Pump(ch, k).chan.app.readerOpen == ch.app.readerOpen
  {
  }

  /**
   The only way to a standstill: in every reachable state with nothing on its way
   and data parked, the reader was dropped in front of queued items, the window is
   empty, and so the sender is stuck for ever.
   */
  lemma StuckMeansDeserted(s: Sys)
    requires Reachable(s) && s.b.chan.config.window >= 2 && Stuck(s)
    ensures s.b.log.stalled && Deserted(s.b.chan)
    ensures forall ts: seq<Turn>, t: Sys :: Runs(s, ts, t) ==> Payloads(t.a.log.sent) == Payloads(s.a.log.sent)
  {
    if !s.b.log.stalled {
      IdleMeansSent(s);
    }
    ReachableInv(s);
    SettledWindow(s);
    var start: Sys, us: seq<Turn> :| Initial(start) && Runs(start, us, s);
    StalledGone(start, us, s);
    forall ts: seq<Turn>, t: Sys | Runs(s, ts, t)
      ensures Payloads(t.a.log.sent) == Payloads(s.a.log.sent)
    {
      StuckForEver(s, ts, t);
    }
  }

  /** Such a state is reachable: four bytes, a two-byte window, a one-message buffer, and a reader that leaves. */
  lemma StandstillExists() returns (s: Sys)
    ensures Reachable(s) && s.b.chan.config.window >= 2 && Stuck(s) && Deserted(s.b.chan)
    ensures forall ts: seq<Turn>, t: Sys :: Runs(s, ts, t) ==> Payloads(t.a.log.sent) == Payloads(s.a.log.sent)
  {
    s := StalledRun();
    StuckMeansDeserted(s);
  }
}
