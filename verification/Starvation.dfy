/**
 When the sender's backlog is guaranteed to drain. The grant test compares the
 window with half of the configured one, so a window of 0 or 1 byte is never
 refilled; and a reader dropped in front of queued items takes the grant they
 would have caused with it.
 */
module Starvation {
  import opened Common
  import opened Protocol
  import Outbound
  import opened Inbound
  import opened Channel
  import opened Endpoint
  import opened Sending
  import opened Receiving
  import opened Discipline
  import opened FlowControl

  // ------------------------------------------------------- the outbound cap

  /** The backlog never outgrows the configured cap: a channel over it is closed in the same step. */
  predicate Capped(ch: Chan) {
    ch.entry.Some? ==> Outbound.PendingBytes(ch.entry.value.pending) <= ch.config.maxPendingOutbound
  }

  lemma FlushShrinks(p: Outbound.Params)
    requires p.recipientMax > 0
    ensures
      var r := Outbound.FlushOp(Some(p));
      r.Ok? && (r.value.entry.Some? ==>
                  Outbound.PendingBytes(r.value.entry.value.pending) <= Outbound.PendingBytes(p.pending))
  {
    Outbound.FlushOpEntry(p);
  }

  lemma PlainCapped(ch: Chan, f: Effect)
    requires Capped(ch) && Plain(ch, f)
    ensures Capped(f.chan)
  {
  }

  lemma FlushCapped(ch: Chan, p: Outbound.Params, f: Effect)
    requires ch.entry.Some? && Capped(ch) && p.recipientMax > 0 && p.pending == ch.entry.value.pending
    requires f.chan.config == ch.config && Outbound.FlushOp(Some(p)).Ok? && f.chan.entry == Outbound.FlushOp(Some(p)).value.entry
    ensures Capped(f.chan)
  {
    FlushShrinks(p);
  }

  lemma StepCapped(e: Endpoint, ev: Event)
    requires EndpointInv(e) && Allowed(e, ev) && Capped(e.chan) && Step(e.chan, ev).Ok?
    ensures Capped(Step(e.chan, ev).value.chan)
  {
    match ev
    case Receive(Data(stream, bytes), _) =>
      PlainReceiveData(e.chan, stream, bytes);
      PlainCapped(e.chan, ReceiveData(e.chan, stream, bytes));
    case Receive(Close, _) =>
      PlainReceiveClose(e.chan);
      PlainCapped(e.chan, ReceiveClose(e.chan));
    case Receive(Adjust(amount), notify) =>
      if e.chan.entry.Some? {
        var p := e.chan.entry.value;
        FlushCapped(e.chan, p.(recipientWindow := SaturatingAdd(p.recipientWindow, amount)),
                    ReceiveAdjust(e.chan, amount, notify).value);
      }
    case Resolve(k) =>
      PlainPump(e.chan, k);
      PlainCapped(e.chan, Pump(e.chan, k));
    case RekeyEnd =>
      if e.chan.entry.Some? {
        FlushCapped(e.chan, e.chan.entry.value, EndRekey(e.chan).value);
      }
    case _ =>
  }

  lemma {:induction false} RunCapped(s: Sys, ts: seq<Turn>, t: Sys)
    requires SysInv(s) && Runs(s, ts, t) && Capped(s.a.chan) && Capped(s.b.chan)
    ensures Capped(t.a.chan) && Capped(t.b.chan)
    ensures t.a.chan.config == s.a.chan.config && t.b.chan.config == s.b.chan.config
    decreases |ts|
  {
    if ts != [] {
      var u := if ts[0].left then s else Swap(s);
      var ev := LeftEvent(u, ts[0].move);
      if ts[0].move.Take? {
        PeerIsCompliant(u);
      }
      TurnKeeps(s, ts[0]);
      StepCapped(u.a, ev);
      StepConfig(u.a.chan, ev);
      RunCapped(Next(s, ts[0]).value, ts[1..], t);
    }
  }

  // ------------------------------------------------------ when backlogs drain

  /** Nothing is on its way, both sides are open, and no reader left queued items behind. */
  predicate Quiet(s: Sys) {
    && s.ab == [] && s.ba == [] && s.b.chan.inbound.None? && !s.a.chan.rekeying
    && s.a.chan.entry.Some? && s.b.chan.entry.Some? && !s.b.log.stalled
  }

  /** However the run goes, a quiet system has sent everything `a` submitted. */
  ghost predicate AlwaysDrains(start: Sys) {
    forall ts: seq<Turn>, t: Sys :: Runs(start, ts, t) && Quiet(t) ==>
      Outbound.Backlog(t.a.chan.entry.value.pending) == []
  }

  lemma EnoughWindow(start: Sys)
    requires Initial(start)
    requires start.b.chan.config.window >= 2 || start.a.chan.config.maxPendingOutbound == 0
    ensures AlwaysDrains(start)
  {
    forall ts: seq<Turn>, t: Sys | Runs(start, ts, t) && Quiet(t)
      ensures Outbound.Backlog(t.a.chan.entry.value.pending) == []
    {
      InitialInv(start);
      RunCapped(start, ts, t);
      if start.b.chan.config.window >= 2 {
        assert Reachable(t);
        IdleMeansSent(t);
      }
    }
  }

  /** The bytes a sender submits to starve itself: one more than the window. */
  function Burst(window: nat): seq<Byte> {
    seq(window + 1, _ => 0)
  }

  /** Submitting one byte more than a window below two: the window is spent and one byte stays parked. */
  lemma BurstParks(start: Sys)
    requires Initial(start) && start.b.chan.config.window < 2 && start.a.chan.config.maxPendingOutbound > 0
    ensures
      var w := start.b.chan.config.window;
      var r := SubmitData(start.a.chan, Main, Burst(w));
      && r.Ok?
      && r.value.out == (if w == 0 then [] else [Data(Main, [0])])
      && r.value.chan == start.a.chan.(entry := Some(start.a.chan.entry.value.(
           recipientWindow := 0, pending := [Outbound.Chunk(Burst(w), Main, w)])))
      && |Outbound.Backlog([Outbound.Chunk(Burst(w), Main, w)])| == 1
  {
    var w, p := start.b.chan.config.window, start.a.chan.entry.value;
    var part := Burst(w)[0..w];
    var left := Outbound.Chunk(Burst(w), Main, w);
    if w == 0 {
      assert part == [];
    } else {
      assert part == [0] && part[1..] == [] && part[..1] == part;
    }
    assert Outbound.DataNoQueue(p, Burst(w), Main, 0)
        == Ok(Outbound.Sent(p.(recipientWindow := 0), Outbound.Pieces(Main, part, p.recipientMax), w));
    assert [left][1..] == [];
    assert Outbound.Backlog([left]) == Outbound.Unsent(left) + Outbound.Backlog([]);
    assert |Outbound.Unsent(left)| == 1;
  }

  lemma StarvedRun(start: Sys)
    requires Initial(start) && start.b.chan.config.window < 2 && start.a.chan.config.maxPendingOutbound > 0
    ensures !AlwaysDrains(start)
  {
    var submit, one := BurstTurn(start);
    if start.b.chan.config.window == 0 {
      RunsOne(start, submit, [], one);
      assert Quiet(one);
    } else {
      var two := StarvedTake(one);
      var take := Turn(false, Take(false));
      RunsOne(one, take, [], two);
      RunsOne(start, submit, [take] + [], two);
      assert Quiet(two);
    }
  }

  lemma BurstTurn(start: Sys) returns (submit: Turn, one: Sys)
    requires Initial(start) && start.b.chan.config.window < 2 && start.a.chan.config.maxPendingOutbound > 0
    ensures Ready(start, submit) && Next(start, submit) == Ok(one)
    ensures one.ab == (if start.b.chan.config.window == 0 then [] else [Data(Main, [0])])
    ensures one.ba == [] && one.b == start.b && !one.a.chan.rekeying && one.a.chan.entry.Some?
    ensures |Outbound.Backlog(one.a.chan.entry.value.pending)| == 1
  {
    BurstParks(start);
    var burst := Burst(start.b.chan.config.window);
    submit := Turn(true, Own(AppData(Main, burst)));
    one := FirstSubmit(start, burst, SubmitData(start.a.chan, Main, burst).value);
  }

  lemma FirstSubmit(start: Sys, bytes: seq<Byte>, f: Effect) returns (one: Sys)
    requires start.ab == [] && SubmitData(start.a.chan, Main, bytes) == Ok(f)
    ensures
      var submit := Turn(true, Own(AppData(Main, bytes)));
      Ready(start, submit) && Next(start, submit) == Ok(one)
    ensures one.a.chan == f.chan && one.b == start.b && one.ab == f.out && one.ba == start.ba
  {
    OwnTurn(start, AppData(Main, bytes), f);
    one := Sys(Record(start.a, AppData(Main, bytes), f), start.b, start.ab + f.out, start.ba);
    assert [] + f.out == f.out;
  }

  /** The byte that fills a one-byte window arrives; nothing comes back. */
  lemma StarvedTake(s: Sys) returns (t: Sys)
    requires s.ab == [Data(Main, [0])] && s.b.chan.entry.Some? && s.b.chan.entry.value.senderWindow == 1
    requires s.b.chan.config.window == 1 && s.b.chan.app.HasRoom() && s.b.chan.inbound.None?
    ensures Ready(s, Turn(false, Take(false))) && Next(s, Turn(false, Take(false))) == Ok(t)
    ensures t.a == s.a && t.ab == [] && t.ba == s.ba && t.b.log.stalled == s.b.log.stalled
    ensures t.b.chan.entry.Some? && t.b.chan.inbound.None?
  {
    OneByteArrives(s.b.chan);
    PeerTakes(s, false, ReceiveData(s.b.chan, Main, [0]));
    NoneAdded(s.ba);
    t := Next(s, Turn(false, Take(false))).value;
  }

  /** With a one-byte window, the byte that fills it is delivered and nothing is granted. */
  lemma OneByteArrives(ch: Chan)
    requires ch.entry.Some? && ch.entry.value.senderWindow == 1 && ch.config.window == 1
    requires ch.app.HasRoom() && ch.inbound.None?
    ensures
      var f := ReceiveData(ch, Main, [0]);
      && f.out == []
      && f.chan.inbound.None?
      && f.chan.entry == Some(ch.entry.value.(senderWindow := 0))
  {
    ConsumeFits(ch.entry.value, 1);
  }

  /** The exact condition: backlogs always drain unless the receiver's window is below two bytes and
      the sender is allowed a backlog at all. */
  lemma DrainsIff(start: Sys)
    requires Initial(start)
    ensures AlwaysDrains(start) <==>
      start.b.chan.config.window >= 2 || start.a.chan.config.maxPendingOutbound == 0
  {
    if start.b.chan.config.window >= 2 || start.a.chan.config.maxPendingOutbound == 0 {
      EnoughWindow(start);
    } else {
      StarvedRun(start);
    }
  }

  // --------------------------------------------- a reader dropped too early

  /** Both sides with a two-byte window, one-byte packets and a one-message buffer. */
  const FRESH: Endpoint := Endpoint(
    Peer(2, 1),
    Chan(Config(2, 2, 100), Some(Outbound.Params(0, 2, 2, 1, true, [], false, false)), App(true, true, 1, []), None, [], false),
    Log([], [], [], [], [], false, false),
    false)

  const FOUR: seq<Byte> := [0, 0, 0, 0]

  const BYTE: Packet := Data(Main, [0])

  lemma FourSubmitted()
    ensures SubmitData(FRESH.chan, Main, FOUR) == Ok(Effect(
      FRESH.chan.(entry := Some(FRESH.chan.entry.value.(recipientWindow := 0, pending := [Outbound.Chunk(FOUR, Main, 2)]))),
      [BYTE, BYTE], [], false))
    ensures Outbound.PendingBytes([Outbound.Chunk(FOUR, Main, 2)]) == 2
  {
    var two: seq<Byte> := [0, 0];
    var one: seq<Byte> := [0];
    assert FOUR[0..2] == two && two[..1] == one && two[1..] == one && one[..1] == one && one[1..] == [];
    assert Outbound.Pieces(Main, one, 1) == [BYTE];
    assert Outbound.Pieces(Main, two, 1) == [BYTE] + [BYTE] == [BYTE, BYTE];
    var p := FRESH.chan.entry.value;
    assert Outbound.DataNoQueue(p, FOUR, Main, 0) == Ok(Outbound.Sent(p.(recipientWindow := 0), [BYTE, BYTE], 2));
    var left := Outbound.Chunk(FOUR, Main, 2);
    assert [left][1..] == [];
    assert |Outbound.Unsent(left)| == 2;
    assert Outbound.Backlog([left]) == Outbound.Unsent(left) + Outbound.Backlog([]);
  }

  /** The receiver after the first byte filled its buffer, after the second queued, and at the end. */
  function Receiver(window: nat, app: App, inbound: Option<Queue>, reserves: seq<nat>): Chan {
    FRESH.chan.(entry := Some(FRESH.chan.entry.value.(senderWindow := window)), app := app, inbound := inbound, reserves := reserves)
  }

  const FULL := App(true, true, 1, [Item(BYTE)])
  const GONE := App(true, false, 1, [])
  const WAITING := Enqueue(DEFAULT_QUEUE, BYTE)

  lemma TwoArrive()
    ensures ReceiveData(FRESH.chan, Main, [0]) == Effect(Receiver(1, FULL, None, []), [], [BYTE], false)
    ensures ReceiveData(Receiver(1, FULL, None, []), Main, [0]) == Effect(Receiver(0, FULL, Some(WAITING), [0]), [], [], false)
    ensures DropReader(Receiver(0, FULL, Some(WAITING), [0])).chan == Receiver(0, GONE, Some(WAITING), [0])
    ensures Pump(Receiver(0, GONE, Some(WAITING), [0]), 0) == Effect(Receiver(0, GONE, None, []), [], [], false)
  {
    ConsumeFits(FRESH.chan.entry.value, 1);
    ConsumeFits(Receiver(1, FULL, None, []).entry.value, 1);
    assert WAITING.items == [BYTE];
  }

  /** The reader goes away in front of the queued byte, and its reservation resolves. */
  lemma DropThenResolve(s: Sys) returns (t: Sys, ts: seq<Turn>)
    requires s.b.chan == Receiver(0, FULL, Some(WAITING), [0])
    ensures Runs(s, ts, t)
    ensures t.a == s.a && t.ab == s.ab && t.ba == s.ba && t.b.chan == Receiver(0, GONE, None, [])
  {
    TwoArrive();
    NoneAdded(s.ba);
    var drop, resolve := Turn(false, Own(AppDropReader)), Turn(false, Own(Resolve(0)));
    PeerTurn(s, AppDropReader, DropReader(s.b.chan));
    var dropped := Next(s, drop).value;
    PeerTurn(dropped, Resolve(0), Pump(dropped.b.chan, 0));
    t := Next(dropped, resolve).value;
    RunsOne(dropped, resolve, [], t);
    RunsOne(s, drop, [resolve] + [], t);
    ts := [drop] + ([resolve] + []);
  }

  lemma TakeBoth(s: Sys) returns (t: Sys, ts: seq<Turn>)
    requires s.b.chan == FRESH.chan && s.ab == [BYTE, BYTE]
    ensures Runs(s, ts, t)
    ensures t.a == s.a && t.ab == [] && t.ba == s.ba && t.b.chan == Receiver(0, GONE, None, [])
  {
    TwoArrive();
    NoneAdded(s.ba);
    var take := Turn(false, Take(false));
    PeerTakes(s, false, ReceiveData(s.b.chan, Main, [0]));
    var one := Next(s, take).value;
    assert one.ab == [BYTE];
    PeerTakes(one, false, ReceiveData(one.b.chan, Main, [0]));
    var two := Next(one, take).value;
    assert two.ab == [];
    var rest: seq<Turn>;
    t, rest := DropThenResolve(two);
    RunsOne(one, take, rest, t);
    RunsOne(s, take, [take] + rest, t);
    ts := [take] + ([take] + rest);
  }

  /** A reachable state with nothing on its way and data parked: `pump_inbound` drops the queue of a
      vanished reader without granting the bytes it held. */
  lemma StalledRun() returns (s: Sys)
    ensures Reachable(s) && s.b.chan.config.window >= 2
    ensures s.ab == [] && s.ba == [] && s.b.chan.inbound.None? && !s.a.chan.rekeying
    ensures s.a.chan.entry.Some? && s.b.chan.entry.Some?
    ensures s.a.chan.entry.value.pending != []
  {
    var submit, one := FirstTurn();
    var rest: seq<Turn>;
    s, rest := TakeBoth(one);
    RunsOne(Sys(FRESH, FRESH, [], []), submit, rest, s);
    FreshStart();
  }

  /** Four bytes submitted against a two-byte window. */
  lemma FirstTurn() returns (submit: Turn, one: Sys)
    ensures
      var start := Sys(FRESH, FRESH, [], []);
      Ready(start, submit) && Next(start, submit) == Ok(one)
    ensures one.b == FRESH && one.ab == [BYTE, BYTE] && one.ba == [] && !one.a.chan.rekeying
    ensures one.a.chan.entry.Some? && one.a.chan.entry.value.pending != []
    ensures Outbound.PendingBytes(one.a.chan.entry.value.pending) == 2
  {
    FourSubmitted();
    var start, ev, f := Sys(FRESH, FRESH, [], []), AppData(Main, FOUR), SubmitData(FRESH.chan, Main, FOUR).value;
    OwnTurn(start, ev, f);
    submit, one := Turn(true, Own(ev)), Sys(Record(FRESH, ev, f), FRESH, [] + f.out, []);
    assert [] + f.out == f.out;
  }

  lemma FreshStart()
    ensures Initial(Sys(FRESH, FRESH, [], []))
  {
  }
}
