/**
 Progress. Delivering packets, resolving reservations, reading, and finishing a
 rekey all consume a potential that nothing but new application input refills.
 So from every reachable state any scheduler that keeps serving the system stops
 within a bounded number of turns, and then everything submitted has been read.
 */
module Liveness {
  import opened Common
  import opened Protocol
  import Outbound
  import opened Inbound
  import opened Channel
  import opened Endpoint
  import opened Sending
  import opened Receiving
  import opened Discipline
  import opened FlowControl

  // ----------------------------------------------------------- the potential

  /** What a packet can still cost, on the wire or in the inbound queue. */
  function ItemCost(p: Packet, wire: bool): nat {
    match p
    case Data(_, bytes) => if wire then 6 * |bytes| else 4 * |bytes|
    case Eof => if wire then 4 else 2
    case Close => if wire then 4 else 2
    case Adjust(_) => 2
  }

  function Cost(ps: seq<Packet>, wire: bool): nat {
    if ps == [] then 0 else ItemCost(ps[0], wire) + Cost(ps[1..], wire)
  }

  /** An open entry can still send its backlog, a deferred EOF and one CLOSE. */
  function EntryCost(entry: Option<Outbound.Params>): nat {
    match entry
    case None => 0
    case Some(p) => 6 * Outbound.PendingBytes(p.pending) + (if p.pendingEof then 4 else 0) + 4
  }

  function ChanCost(ch: Chan): nat {
    EntryCost(ch.entry) + Cost(Items(ch.inbound), false) + |ch.app.buffer| + |ch.reserves| + (if ch.rekeying then 1 else 0)
  }

  function Potential(s: Sys): nat {
    ChanCost(s.a.chan) + ChanCost(s.b.chan) + Cost(s.ab, true) + Cost(s.ba, true)
  }

  lemma {:induction false} CostConcat(a: seq<Packet>, b: seq<Packet>, wire: bool)
    ensures Cost(a + b, wire) == Cost(a, wire) + Cost(b, wire)
  {
    if a == [] {
      assert a + b == b;
    } else {
      CostConcat(a[1..], b, wire);
      assert (a + b)[1..] == a[1..] + b;
    }
  }

  lemma CostOne(p: Packet, wire: bool)
    ensures Cost([p], wire) == ItemCost(p, wire)
  {
    assert [p][1..] == [];
  }

  lemma {:induction false} DataCost(ps: seq<Packet>)
    requires forall i :: 0 <= i < |ps| ==> ps[i].Data?
    ensures Cost(ps, true) == 6 * DataLength(ps)
  {
    if ps != [] {
      DataCost(ps[1..]);
    }
  }

  // ------------------------------------------------------- what a step consumes

  /** Replaying the backlog only moves cost from the entry to the wire. */
  lemma FlushCost(p: Outbound.Params)
    requires p.recipientMax > 0
    ensures Outbound.FlushOp(Some(p)).Ok?
    ensures
      var r := Outbound.FlushOp(Some(p)).value;
      EntryCost(r.entry) + Cost(r.out, true) == EntryCost(Some(p))
  {
    Outbound.FlushOpPackets(p);
    Outbound.FlushOpEntry(p);
    var r := Outbound.FlushOp(Some(p)).value;
    var done := Outbound.PendingBytes(p.pending) <= p.recipientWindow;
    var data := Outbound.FlushData(p).value.out;
    Outbound.ShapedFolds(r.out, p.recipientMax, data, done && p.pendingEof, done && p.pendingClose);
    ShapedCost(r.out, p.recipientMax, data, done && p.pendingEof, done && p.pendingClose);
  }

  lemma ShapedCost(out: seq<Packet>, max: nat, data: seq<Packet>, eof: bool, close: bool)
    requires Outbound.Shaped(out, max, data, eof, close)
    ensures Cost(out, true) == 6 * DataLength(data) + (if eof then 4 else 0) + (if close then 4 else 0)
  {
    var e: seq<Packet> := if eof then [Eof] else [];
    var k: seq<Packet> := if close then [Close] else [];
    DataCost(data);
    CostOne(Eof, true);
    CostOne(Close, true);
    CostConcat(data + e, k, true);
    CostConcat(data, e, true);
  }

  lemma ControlCost(out: seq<Packet>)
    requires out == [] || (|out| == 1 && out[0].Adjust?)
    ensures Cost(out, true) <= 2
  {
    if out != [] {
      assert out == [out[0]];
      CostOne(out[0], true);
    }
  }

  /** The steps that serve what is already under way. */
  predicate ServiceEvent(ev: Event) {
    || (ev.Receive? && (ev.packet.Data? ==> ev.packet.bytes != []))
    || ev.Resolve? || ev.AppRead? || ev.RekeyEnd?
  }

  function Price(ev: Event): nat {
    if ev.Receive? then ItemCost(ev.packet, true) else 0
  }

  /** A step with this effect consumes potential. */
  predicate Pays(ch: Chan, ev: Event, f: Effect) {
    ChanCost(f.chan) + Cost(f.out, true) < ChanCost(ch) + Price(ev)
  }

  /** One more item in the queue, at most one more reservation. */
  lemma WaitingCost(ch: Chan, entry: Option<Outbound.Params>, item: Packet)
    requires Reserved(ch) && EntryCost(entry) <= EntryCost(ch.entry)
    requires ch.inbound.None? ==> ch.app.readerOpen && ch.app.present
    ensures ChanCost(Waiting(ch, entry, item)) <= ChanCost(ch) + ItemCost(item, false) + 1
  {
    CostConcat(Items(ch.inbound), [item], false);
    CostOne(item, false);
    assert Items(Waiting(ch, entry, item).inbound) == Items(ch.inbound) + [item];
  }

  lemma GrantCost(entry: Option<Outbound.Params>, window: nat, undelivered: nat)
    ensures
      var g := Outbound.Grant(entry, window, undelivered);
      EntryCost(g.entry) == EntryCost(entry) && Cost(g.out, true) <= 2
  {
    ControlCost(Outbound.Grant(entry, window, undelivered).out);
  }

  lemma DataPays(e: Endpoint, stream: Stream, bytes: seq<Byte>, notify: bool)
    requires RecvInv(e) && Compliant(e, Data(stream, bytes)) && bytes != []
    ensures Pays(e.chan, Receive(Data(stream, bytes), notify), ReceiveData(e.chan, stream, bytes))
  {
    var ch, item := e.chan, Data(stream, bytes);
    NeverOverflows(e, item);
    ReceiveDataShape(ch, stream, bytes);
    var entry := Charged(ch.entry, |bytes|);
    assert EntryCost(entry) == EntryCost(ch.entry);
    if Deliver(ch.app, ch.inbound, ch.config.maxPendingInbound, item).outcome.Queued? {
      WaitingCost(ch, entry, item);
    } else {
      GrantCost(entry, ch.config.window, Min(PendingBytes(ch.inbound), U32_MAX));
    }
  }

  lemma EofPays(e: Endpoint, notify: bool)
    requires RecvInv(e) && Compliant(e, Eof)
    ensures Pays(e.chan, Receive(Eof, notify), ReceiveEof(e.chan))
  {
    var ch := e.chan;
    NeverOverflows(e, Eof);
    if Deliver(ch.app, ch.inbound, ch.config.maxPendingInbound, Eof).outcome.Queued? {
      QueuedShape(ch, Eof);
      if !Duplicate(ch, Eof) {
        WaitingCost(ch, ch.entry, Eof);
      }
    } else {
      DirectShape(ch, Eof);
    }
  }

  /** Closing moves the cost of the entry's CLOSE to the wire. */
  lemma CloseCost(entry: Option<Outbound.Params>)
    ensures
      var closed := Outbound.CloseDiscarding(entry);
      EntryCost(closed.entry) + Cost(closed.out, true) <= EntryCost(entry)
  {
    CostOne(Close, true);
  }

  lemma CloseQueuedPays(ch: Chan, notify: bool)
    requires Reserved(ch) && (ch.entry.Some? || ch.app.present) && (ch.entry.Some? ==> ch.entry.value.confirmed)
    requires Deliver(ch.app, ch.inbound, ch.config.maxPendingInbound, Close).outcome.Queued? && !Duplicate(ch, Close)
    ensures Pays(ch, Receive(Close, notify), ReceiveClose(ch))
  {
    var closed := Outbound.CloseDiscarding(ch.entry);
    CloseCost(ch.entry);
    QueuedShape(ch.(entry := closed.entry), Close);
    assert ReceiveClose(ch).chan == Waiting(ch.(entry := closed.entry), closed.entry, Close);
    WaitingCost(ch.(entry := closed.entry), closed.entry, Close);
  }

  lemma CloseDirectPays(ch: Chan, notify: bool)
    requires Reserved(ch) && (ch.entry.Some? || ch.app.present) && (ch.entry.Some? ==> ch.entry.value.confirmed)
    requires
      var d := Deliver(ch.app, ch.inbound, ch.config.maxPendingInbound, Close);
      d.outcome.Delivered? || d.outcome.ChannelGone?
    ensures Pays(ch, Receive(Close, notify), ReceiveClose(ch))
  {
    CloseCost(ch.entry);
    DirectShape(ch, Close);
  }

  lemma ClosePays(e: Endpoint, notify: bool)
    requires RecvInv(e) && Compliant(e, Close)
    ensures Pays(e.chan, Receive(Close, notify), ReceiveClose(e.chan))
  {
    if e.chan.entry.Some? || e.chan.app.present {
      NeverOverflows(e, Close);
      if Deliver(e.chan.app, e.chan.inbound, e.chan.config.maxPendingInbound, Close).outcome.Queued? {
        assert !Duplicate(e.chan, Close);
        CloseQueuedPays(e.chan, notify);
      } else {
        CloseDirectPays(e.chan, notify);
      }
    }
  }

  lemma AdjustPays(e: Endpoint, amount: nat, notify: bool)
    requires EndpointInv(e) && Compliant(e, Adjust(amount))
    ensures ReceiveAdjust(e.chan, amount, notify).Ok?
    ensures Pays(e.chan, Receive(Adjust(amount), notify), ReceiveAdjust(e.chan, amount, notify).value)
  {
    if e.chan.entry.Some? {
      FlushCost(e.chan.entry.value.(recipientWindow := SaturatingAdd(e.chan.entry.value.recipientWindow, amount)));
    }
  }

  lemma ResolvePays(e: Endpoint)
    requires RecvInv(e) && Enabled(e.chan, Resolve(0))
    ensures Pays(e.chan, Resolve(0), Pump(e.chan, 0))
  {
    var ch := e.chan;
    assert ch.reserves[..0] + ch.reserves[1..] == [];
    if ch.inbound.Some? && ch.app.readerOpen {
      var q := ch.inbound.value;
      if q.items[0].Close? {
        CloseIsLast(q, e.log.rcvd);
        PumpClose(ch);
        CostOne(Close, false);
      } else {
        ItemPays(ch);
      }
    }
  }

  lemma ItemPays(ch: Chan)
    requires Reserved(ch) && ch.inbound.Some? && ch.app.readerOpen
    requires GoodItem(ch.inbound.value.items[0]) && !ch.inbound.value.items[0].Close?
    ensures Pays(ch, Resolve(0), Pump(ch, 0))
  {
    var q := ch.inbound.value;
    PumpShape(ch);
    assert ItemCost(q.items[0], false) >= if q.items[0].Data? then 4 else 2;
    GrantCost(ch.entry, ch.config.window, Min(PoppedBytes(q), U32_MAX));
  }

  lemma RekeyEndPays(e: Endpoint)
    requires EndpointInv(e) && e.chan.rekeying
    ensures EndRekey(e.chan).Ok?
    ensures Pays(e.chan, RekeyEnd, EndRekey(e.chan).value)
  {
    if e.chan.entry.Some? {
      FlushCost(e.chan.entry.value);
    }
  }

  lemma ServicePays(e: Endpoint, ev: Event)
    requires EndpointInv(e) && Allowed(e, ev) && ServiceEvent(ev)
    ensures Step(e.chan, ev).Ok?
    ensures Pays(e.chan, ev, Step(e.chan, ev).value)
  {
    match ev
    case AppRead =>
    case Receive(Data(stream, bytes), notify) => DataPays(e, stream, bytes, notify);
    case Receive(Eof, notify) => EofPays(e, notify);
    case Receive(Close, notify) => ClosePays(e, notify);
    case Receive(Adjust(amount), notify) => AdjustPays(e, amount, notify);
    case Resolve(k) =>
      assert k == 0;
      ResolvePays(e);
    case RekeyEnd => RekeyEndPays(e);
  }

  // --------------------------------------------------------- bounded service

  /** Turns that take a packet, resolve a reservation, read a message or finish a rekey. */
  predicate Service(t: Turn) {
    t.move.Take? || t.move.ev.Resolve? || t.move.ev.AppRead? || t.move.ev.RekeyEnd?
  }

  predicate AllService(ts: seq<Turn>) {
    forall i :: 0 <= i < |ts| ==> Service(ts[i])
  }

  lemma LeftPays(s: Sys, m: Move)
    requires SysInv(s) && LeftReady(s, m) && Service(Turn(true, m)) && LeftNext(s, m).Ok?
    ensures Potential(LeftNext(s, m).value) < Potential(s)
    ensures LeftNext(s, m).value.a.log.submitted == s.a.log.submitted
    ensures LeftNext(s, m).value.b.log.submitted == s.b.log.submitted
  {
    var ev := LeftEvent(s, m);
    if m.Take? {
      PeerIsCompliant(s);
      HeadIsLegal(s);
    }
    ServicePays(s.a, ev);
    CostConcat(s.ab, Step(s.a.chan, ev).value.out, true);
  }

  lemma HeadIsLegal(s: Sys)
    requires SysInv(s) && s.ba != []
    ensures s.ba[0].Data? ==> s.ba[0].bytes != []
  {
    assert s.b.log.sent[|s.a.log.rcvd|] == s.ba[0];
  }

  lemma TurnPays(s: Sys, t: Turn)
    requires SysInv(s) && Ready(s, t) && Service(t) && Next(s, t).Ok?
    ensures Potential(Next(s, t).value) < Potential(s)
    ensures Next(s, t).value.a.log.submitted == s.a.log.submitted
    ensures Next(s, t).value.b.log.submitted == s.b.log.submitted
  {
    LeftPays(if t.left then s else Swap(s), t.move);
  }

  /** Every schedule of service turns is bounded by the potential it starts from. */
  lemma {:induction false} ServiceBound(s: Sys, ts: seq<Turn>, t: Sys)
    requires SysInv(s) && AllService(ts) && Runs(s, ts, t)
    ensures SysInv(t)
    ensures |ts| + Potential(t) <= Potential(s)
    ensures t.a.log.submitted == s.a.log.submitted && t.b.log.submitted == s.b.log.submitted
    decreases |ts|
  {
    if ts != [] {
      TurnKeeps(s, ts[0]);
      TurnPays(s, ts[0]);
      ServiceBound(Next(s, ts[0]).value, ts[1..], t);
    }
  }

  /** No service turn is left to take. */
  ghost predicate Served(s: Sys) {
    forall t: Turn :: Service(t) ==> !Ready(s, t)
  }

  /** Serving the system to the end is always possible. */
  lemma {:induction false} CanServe(s: Sys) returns (ts: seq<Turn>, t: Sys)
    requires SysInv(s)
    ensures AllService(ts) && Runs(s, ts, t) && Served(t)
    decreases Potential(s)
  {
    if Served(s) {
      ts, t := [], s;
    } else {
      var turn: Turn :| Service(turn) && Ready(s, turn);
      TurnKeeps(s, turn);
      TurnPays(s, turn);
      var rest: seq<Turn>;
      rest, t := CanServe(Next(s, turn).value);
      RunsOne(s, turn, rest, t);
      ts := [turn] + rest;
    }
  }

  // ------------------------------------------------------------ total delivery

  lemma ServedSide(s: Sys)
    requires SysInv(s) && Served(s)
    ensures s.ba == [] && !s.a.chan.rekeying
    ensures s.a.chan.app.readerOpen ==> s.a.chan.app.buffer == []
    ensures s.a.chan.inbound.None?
  {
    assert !Ready(s, Turn(true, Take(false)));
    assert !Ready(s, Turn(true, Own(RekeyEnd)));
    assert !Ready(s, Turn(true, Own(AppRead)));
    assert !Ready(s, Turn(true, Own(Resolve(0))));
  }

  lemma ServedMirrored(s: Sys)
    requires Served(s)
    ensures Served(Swap(s))
  {
    forall t: Turn | Service(t)
      ensures !Ready(Swap(s), t)
    {
      assert !Ready(s, Turn(!t.left, t.move));
    }
  }

  lemma {:induction false} RunsConcat(s: Sys, ts: seq<Turn>, t: Sys, us: seq<Turn>, u: Sys)
    requires Runs(s, ts, t) && Runs(t, us, u)
    ensures Runs(s, ts + us, u)
    decreases |ts|
  {
    if ts == [] {
      assert ts + us == us;
    } else {
      var turn, rest := ts[0], ts[1..];
      RunsConcat(Next(s, turn).value, rest, t, us, u);
      RunsOne(s, turn, rest + us, u);
      assert ts + us == [turn] + (rest + us) by {
        assert ts == [turn] + rest;
        Assoc([turn], rest, us);
      }
    }
  }

  lemma StaysReachable(s: Sys, ts: seq<Turn>, t: Sys)
    requires Reachable(s) && Runs(s, ts, t)
    ensures Reachable(t)
  {
    var start: Sys, before: seq<Turn> :| Initial(start) && Runs(start, before, s);
    RunsConcat(start, before, s, ts, t);
  }

  /** A served system has nothing in flight, and an open sender faces an open receiver. */
  lemma ServedIsIdle(s: Sys)
    requires Reachable(s) && Served(s)
    ensures s.ab == [] && s.ba == [] && s.b.chan.inbound.None? && !s.a.chan.rekeying
    ensures !s.b.log.cut ==> s.b.chan.app.buffer == []
    ensures s.a.chan.entry.Some? ==> s.b.chan.entry.Some?
  {
    ReachableInv(s);
    ServedSide(s);
    ServedMirrored(s);
    ServedSide(Swap(s));
    if s.b.chan.entry.None? {
      OneClose(s.b.log.sent);
      NoneAdded(s.a.log.rcvd);
    }
  }

  /**
   Total delivery: from any reachable state, serve the system in any order until
   nothing is left to serve. That takes at most `Potential(s)` turns, and then the
   receiving application has read exactly the submitted bytes, unless its reader
   was dropped or the sender's data was discarded by a close.
   */
  lemma TotalDelivery(s: Sys, ts: seq<Turn>, t: Sys)
    requires Reachable(s) && s.b.chan.config.window >= 2
    requires AllService(ts) && Runs(s, ts, t) && Served(t)
    ensures |ts| <= Potential(s)
    ensures !t.b.log.cut && !t.a.aborted ==> Payloads(t.b.log.read) == s.a.log.submitted
  {
    ReachableInv(s);
    ServiceBound(s, ts, t);
    StaysReachable(s, ts, t);
    SameConfig(s, ts, t);
    if !t.b.log.cut && !t.a.aborted {
      ServedMeansRead(t);
    }
  }

  /** Nothing left to serve: everything submitted has been read. */
  lemma ServedMeansRead(t: Sys)
    requires Reachable(t) && Served(t) && t.b.chan.config.window >= 2 && !t.b.log.cut && !t.a.aborted
    ensures Payloads(t.b.log.read) == t.a.log.submitted
  {
    ReachableInv(t);
    ServedIsIdle(t);
    if t.a.chan.entry.None? {
      ClosedMeansDelivered(t);
    } else {
      IdleMeansSent(t);
      EndToEndOrder(t);
    }
  }

  lemma {:induction false} SameConfig(s: Sys, ts: seq<Turn>, t: Sys)
    requires Runs(s, ts, t)
    ensures t.a.chan.config == s.a.chan.config && t.b.chan.config == s.b.chan.config
    decreases |ts|
  {
    if ts != [] {
      var u := if ts[0].left then s else Swap(s);
      StepConfig(u.a.chan, LeftEvent(u, ts[0].move));
      SameConfig(Next(s, ts[0]).value, ts[1..], t);
    }
  }

  // ------------------------------------------------------------------- release

  /** After the peer's CLOSE the application side is released, or its release waits in the queue. */
  predicate Releasing(ch: Chan, rcvd: seq<Packet>) {
    EndsWithClose(rcvd) ==> !ch.app.present || (ch.inbound.Some? && ch.inbound.value.closeQueued)
  }

  lemma CloseReleases(e: Endpoint)
    requires RecvInv(e) && Compliant(e, Close)
    ensures
      var ch := ReceiveClose(e.chan).chan;
      !ch.app.present || (ch.inbound.Some? && ch.inbound.value.closeQueued)
  {
    if e.chan.entry.Some? || e.chan.app.present {
      NeverOverflows(e, Close);
      if Deliver(e.chan.app, e.chan.inbound, e.chan.config.maxPendingInbound, Close).outcome.Queued? {
        QueuedShape(e.chan.(entry := None), Close);
      }
    }
  }

  /** A queue that ends in CLOSE is pumped until CLOSE comes out, and then everything goes. */
  lemma PumpReleases(e: Endpoint)
    requires RecvInv(e) && Enabled(e.chan, Resolve(0)) && Releasing(e.chan, e.log.rcvd)
    ensures Releasing(Pump(e.chan, 0).chan, e.log.rcvd)
  {
    var ch := e.chan;
    if EndsWithClose(e.log.rcvd) && ch.app.present && ch.app.readerOpen {
      var q := ch.inbound.value;
      if q.items[0].Close? {
        CloseIsLast(q, e.log.rcvd);
        PumpClose(ch);
      } else {
        PumpShape(ch);
        assert |q.items| > 1;
      }
    }
  }

  lemma StepReleases(e: Endpoint, ev: Event)
    requires EndpointInv(e) && Allowed(e, ev) && Step(e.chan, ev).Ok? && Releasing(e.chan, e.log.rcvd)
    ensures Releasing(Step(e.chan, ev).value.chan, Record(e, ev, Step(e.chan, ev).value).log.rcvd)
  {
    if ev.Receive? {
      CloseAppend(e.log.rcvd, ev.packet);
      if ev.packet.Close? {
        CloseReleases(e);
      } else {
        NotBoth(e.log.rcvd + [ev.packet]);
      }
    } else if ev.Resolve? {
      PumpReleases(e);
    } else if ev.AppData? || ev.AppClose? || ev.AppEof? || ev.RekeyEnd? {
      ReleasedStays(e, ev);
    }
  }

  /** Local steps after the peer's CLOSE find no entry any more, so they keep the queue or release at once. */
  lemma ReleasedStays(e: Endpoint, ev: Event)
    requires EndpointInv(e) && Allowed(e, ev) && Step(e.chan, ev).Ok? && Releasing(e.chan, e.log.rcvd)
    requires ev.AppData? || ev.AppClose? || ev.AppEof? || ev.RekeyEnd?
    ensures Releasing(Step(e.chan, ev).value.chan, e.log.rcvd)
  {
    if EndsWithClose(e.log.rcvd) {
      OneClose(e.log.rcvd);
      assert e.chan.entry.None?;
    }
  }

  lemma NotBoth(ps: seq<Packet>)
    requires NoClose(ps)
    ensures !EndsWithClose(ps)
  {
  }

  predicate BothReleasing(s: Sys) {
    Releasing(s.a.chan, s.a.log.rcvd) && Releasing(s.b.chan, s.b.log.rcvd)
  }

  lemma LeftReleases(s: Sys, m: Move)
    requires SysInv(s) && LeftReady(s, m) && BothReleasing(s)
    ensures LeftNext(s, m).Ok? && BothReleasing(LeftNext(s, m).value)
  {
    if m.Take? {
      PeerIsCompliant(s);
    }
    LeftKeeps(s, m);
    StepReleases(s.a, LeftEvent(s, m));
  }

  lemma {:induction false} RunReleases(s: Sys, ts: seq<Turn>, t: Sys)
    requires SysInv(s) && Runs(s, ts, t) && BothReleasing(s)
    ensures BothReleasing(t)
    decreases |ts|
  {
    if ts != [] {
      TurnKeeps(s, ts[0]);
      LeftReleases(if ts[0].left then s else Swap(s), ts[0].move);
      RunReleases(Next(s, ts[0]).value, ts[1..], t);
    }
  }

  /** Gone from the channel table, the inbound queues and the application senders. */
  predicate Gone(ch: Chan) {
    ch.entry.None? && ch.inbound.None? && !ch.app.present
  }

  /** No leak: once either side has closed and nothing is left to serve, the channel is gone from every
      map on both sides, whoever closed first and whatever was queued, parked or dropped. */
  lemma ClosedIsReleased(s: Sys)
    requires Reachable(s) && Served(s)
    requires s.a.chan.entry.None? || s.b.chan.entry.None?
    ensures Gone(s.a.chan) && Gone(s.b.chan)
  {
    var start: Sys, ts: seq<Turn> :| Initial(start) && Runs(start, ts, s);
    InitialInv(start);
    RunReleases(start, ts, s);
    ReachableInv(s);
    ServedMirrored(s);
    ServedSide(s);
    ServedSide(Swap(s));
    NoneAdded(s.a.log.rcvd);
    NoneAdded(s.b.log.rcvd);
    if s.a.chan.entry.None? {
      OneClose(s.a.log.sent);
    } else {
      OneClose(s.b.log.sent);
    }
  }
}
