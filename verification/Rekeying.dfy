/**
 What a channel sends while a key re-exchange runs. Submitted data is parked until
 the exchange is over, but packets that arrive meanwhile are processed at once, and a
 window adjustment replays the backlog without asking whether an exchange is running
 (`flush_pending_with_writer` in the CHANNEL_WINDOW_ADJUST arm).
 */
module Rekeying {
  import opened Common
  import opened Protocol
  import Outbound
  import opened Inbound
  import opened Channel
  import opened Endpoint
  import opened Sending
  import opened Receiving
  import opened Discipline
  import opened FlowControl
  import opened Starvation

  /** A window adjustment that finds something parked and opens the window. */
  predicate Releases(e: Endpoint, ev: Event) {
    && ev.Receive? && ev.packet.Adjust? && e.chan.entry.Some?
    && Outbound.PendingBytes(e.chan.entry.value.pending) > 0
    && e.chan.entry.value.recipientWindow + ev.packet.amount > 0
  }

  lemma AdjustReleases(e: Endpoint, amount: nat, notify: bool)
    requires EndpointInv(e) && Compliant(e, Adjust(amount)) && e.chan.entry.Some?
    ensures ReceiveAdjust(e.chan, amount, notify).Ok?
    ensures Payloads(ReceiveAdjust(e.chan, amount, notify).value.out) == [] <==> !Releases(e, Receive(Adjust(amount), notify))
  {
    ReceiveAdjustShape(e, amount, notify);
    var p := Widened(e, amount);
    Outbound.FlushOpEntry(p);
    var r := Outbound.FlushOp(Some(p)).value;
    if r.entry.Some? {
      assert |Payloads(r.out)| + |Outbound.Backlog(r.entry.value.pending)| == |Outbound.Backlog(p.pending)|;
      assert r.entry.value.pending == [] ==> Outbound.Backlog(r.entry.value.pending) == [];
    }
  }

  /** Data submitted during the exchange is parked, or closes the channel. */
  lemma SubmitParks(ch: Chan, stream: Stream, bytes: seq<Byte>)
    requires ch.rekeying && (ch.entry.Some? ==> ch.entry.value.confirmed)
    ensures SubmitData(ch, stream, bytes).Ok?
    ensures SubmitData(ch, stream, bytes).value.out == [] || SubmitData(ch, stream, bytes).value.out == [Close]
  {
  }

  /**
   While a re-exchange runs, no step sends channel data, except exactly one kind: an
   arriving window adjustment that opens the window for something parked.
   */
  lemma DataDuringRekey(e: Endpoint, ev: Event)
    requires EndpointInv(e) && Allowed(e, ev) && e.chan.rekeying && !ev.RekeyEnd?
    ensures Step(e.chan, ev).Ok?
    ensures Payloads(Step(e.chan, ev).value.out) == [] <==> !Releases(e, ev)
  {
    match ev
    case AppData(stream, bytes) =>
      SubmitParks(e.chan, stream, bytes);
      ControlFolds(SubmitData(e.chan, stream, bytes).value.out);
    case AppEof => ControlFolds(SubmitEof(e.chan).out);
    case AppClose => ControlFolds(SubmitClose(e.chan).out);
    case Receive(Data(stream, bytes), _) =>
      PlainReceiveData(e.chan, stream, bytes);
      ControlFolds(ReceiveData(e.chan, stream, bytes).out);
    case Receive(Close, _) =>
      PlainReceiveClose(e.chan);
      ControlFolds(ReceiveClose(e.chan).out);
    case Receive(Adjust(amount), notify) =>
      if e.chan.entry.Some? {
        AdjustReleases(e, amount, notify);
      }
    case _ =>
  }

  // ------------------------------------------------------------ such a step exists

  const EMPTY := App(true, true, 1, [])

  /** The receiver takes a byte, its application reads it, and the next byte opens the window again. */
  lemma ReadAndGrant()
    ensures ReceiveData(FRESH.chan, Main, [0]) == Effect(Receiver(1, FULL, None, []), [], [BYTE], false)
    ensures TakeMessage(Receiver(1, FULL, None, [])) == Effect(Receiver(1, EMPTY, None, []), [], [], false)
    ensures ReceiveData(Receiver(1, EMPTY, None, []), Main, [0]) == Effect(Receiver(2, FULL, None, []), [Adjust(2)], [BYTE], false)
  {
    ConsumeFits(FRESH.chan.entry.value, 1);
    ConsumeFits(Receiver(1, EMPTY, None, []).entry.value, 1);
    assert FULL.buffer[1..] == [];
  }

  /** Then the sender begins a re-exchange. */
  lemma BeginsRekey(s: Sys) returns (t: Sys, begin: Turn)
    requires !s.a.chan.rekeying && s.a.chan.entry.Some?
    ensures Runs(s, [begin], t) && t.ba == s.ba && t.a.chan == s.a.chan.(rekeying := true)
  {
    begin := Turn(true, Own(RekeyBegin));
    OwnTurn(s, RekeyBegin, BeginRekey(s.a.chan));
    t := Next(s, begin).value;
    RunsOne(s, begin, [], t);
    assert [begin] + [] == [begin];
  }

  lemma BytesTaken(s: Sys) returns (t: Sys, ts: seq<Turn>)
    requires s.b.chan == FRESH.chan && s.ab == [BYTE, BYTE] && s.ba == []
    requires !s.a.chan.rekeying && s.a.chan.entry.Some?
    ensures Runs(s, ts, t) && t.a.chan == s.a.chan.(rekeying := true) && t.ba == [Adjust(2)]
  {
    ReadAndGrant();
    var take, read := Turn(false, Take(false)), Turn(false, Own(AppRead));
    PeerTakes(s, false, ReceiveData(s.b.chan, Main, [0]));
    var one := Next(s, take).value;
    assert one.ab == [BYTE] && one.ba == [];
    PeerTurn(one, AppRead, TakeMessage(one.b.chan));
    var two := Next(one, read).value;
    assert two.ba == [];
    PeerTakes(two, false, ReceiveData(two.b.chan, Main, [0]));
    var three := Next(two, take).value;
    assert three.ba == [Adjust(2)];
    var begin: Turn;
    t, begin := BeginsRekey(three);
    RunsOne(two, take, [begin], t);
    RunsOne(one, read, [take] + [begin], t);
    RunsOne(s, take, [read] + ([take] + [begin]), t);
    ts := [take] + ([read] + ([take] + [begin]));
  }

  /** A run in which the sender has started a re-exchange, and the next packet makes it send parked data. */
  lemma DataDuringRekeyExists() returns (s: Sys)
    ensures Reachable(s) && s.a.chan.rekeying && s.ba != []
    ensures
      var ev := Receive(s.ba[0], false);
      Allowed(s.a, ev) && Step(s.a.chan, ev).Ok? && Payloads(Step(s.a.chan, ev).value.out) != []
  {
    var submit, one := FirstTurn();
    var rest: seq<Turn>;
    s, rest := BytesTaken(one);
    RunsOne(Sys(FRESH, FRESH, [], []), submit, rest, s);
    FreshStart();
    assert Reachable(s);
    ReachableInv(s);
    PeerIsCompliant(s);
    DataDuringRekey(s.a, Receive(s.ba[0], false));
  }
}
