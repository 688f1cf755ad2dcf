/**
 Producers waiting in `Handle::data` (russh/src/client/mod.rs): each is answered
 at once, parked behind the backlog, or failed. A producer is named by the number
 of bytes that had been submitted when its own data was.
 */
module Acks {
  import opened Common
  import opened Protocol
  import Outbound
  import opened Channel
  import opened Endpoint
  import opened Sending
  import opened Receiving
  import opened Discipline
  import opened FlowControl
  import opened Starvation

  /** `failed` is set once the peer answered with CHANNEL_OPEN_FAILURE. */
  datatype Producers = Producers(e: Endpoint, parked: seq<nat>, acked: seq<nat>, failed: bool)

  datatype AckEvent =
    | Plain(ev: Event)
    | AckedData(stream: Stream, bytes: seq<Byte>)
    | Release
    | OpenFailure

  predicate Possible(s: Producers, a: AckEvent) {
    a.Plain? ==> Allowed(s.e, a.ev)
  }

  predicate Waits(entry: Option<Outbound.Params>) {
    entry.Some? && entry.value.pending != []
  }

  predicate Stepping(a: AckEvent) {
    a.Plain? || a.AckedData?
  }

  function EventOf(a: AckEvent): Event
    requires Stepping(a)
  {
    if a.Plain? then a.ev else AppData(a.stream, a.bytes)
  }

  /** A step of the endpoint; steps that tear the channel down drop the parked producers unanswered. */
  function Stepped(s: Producers, a: AckEvent): Producers
    requires Possible(s, a) && Stepping(a) && Step(s.e.chan, EventOf(a)).Ok?
  {
    var f := Step(s.e.chan, EventOf(a)).value;
    s.(e := Record(s.e, EventOf(a), f), parked := if f.failAcks then [] else s.parked)
  }

  /** The CHANNEL_OPEN_FAILURE arm removes the channel from two maps and leaves the producers parked. */
  function OpenFailed(s: Producers): Producers {
    s.(e := s.e.(chan := s.e.chan.(entry := None, app := s.e.chan.app.(present := false))), failed := true)
  }

  /** The `ChannelDataAcked` arm after the send, `release_outbound_acks`, and CHANNEL_OPEN_FAILURE. */
  function AckStep(s: Producers, a: AckEvent): Result<Producers, Outbound.Error>
    requires Possible(s, a)
  {
    if a.Release? then
      Ok(if Waits(s.e.chan.entry) then s else s.(parked := [], acked := s.acked + s.parked))
    else if a.OpenFailure? then Ok(OpenFailed(s))
    else
      match Step(s.e.chan, EventOf(a))
      case Err(e) => Err(e)
      case Ok(_) =>
        var t := Stepped(s, a);
        var mine := |t.e.log.submitted|;
        Ok(if !a.AckedData? || t.e.chan.entry.None? then t
           else if Waits(t.e.chan.entry) then t.(parked := t.parked + [mine])
           else t.(acked := t.acked + [mine]))
  }

  predicate AllWithin(ps: seq<nat>, limit: nat) {
    forall i :: 0 <= i < |ps| ==> ps[i] <= limit
  }

  predicate Ordered(ps: seq<nat>) {
    forall i, j :: 0 <= i < j < |ps| ==> ps[i] <= ps[j]
  }

  /** While the peer plays by the rules: whoever is parked has submitted what is marked, and once the
      entry is gone, whoever is still parked was drained before. */
  predicate LiveInv(s: Producers) {
    && EndpointInv(s.e)
    && (s.e.chan.entry.Some? ==> !s.e.aborted)
    && AllWithin(s.parked, if s.e.chan.entry.Some? then |s.e.log.submitted| else DataLength(s.e.log.sent))
  }

  /** After CHANNEL_OPEN_FAILURE nothing more is sent, so whoever is parked must have been drained before. */
  predicate FailedInv(s: Producers) {
    && s.e.chan.entry.None?
    && Payloads(s.e.log.sent) <= s.e.log.submitted
    && AllWithin(s.parked, DataLength(s.e.log.sent))
  }

  /** Only producers whose bytes are all in packets have been told so, the parked ones wait in the order
      they came, and none can be told so later by mistake. */
  predicate AckInv(s: Producers) {
    && AllWithin(s.acked, DataLength(s.e.log.sent))
    && Ordered(s.parked)
    && if s.failed then FailedInv(s) else LiveInv(s)
  }

  /** A step that removes the entry fails the producers or has sent everything submitted. */
  lemma DrainedOrFailed(e: Endpoint, ev: Event)
    requires EndpointInv(e) && Allowed(e, ev) && Step(e.chan, ev).Ok? && !e.aborted
    requires e.chan.entry.Some? && Step(e.chan, ev).value.chan.entry.None?
    ensures Step(e.chan, ev).value.failAcks || Payloads(Apply(e, ev).log.sent) == Apply(e, ev).log.submitted
  {
    StepKeeps(e, ev);
    if !Step(e.chan, ev).value.failAcks {
      NothingDiscarded(e, ev);
    }
  }

  lemma NothingDiscarded(e: Endpoint, ev: Event)
    requires EndpointInv(e) && Allowed(e, ev) && Step(e.chan, ev).Ok?
    requires e.chan.entry.Some? && Step(e.chan, ev).value.chan.entry.None?
    ensures Step(e.chan, ev).value.failAcks || !Discards(e, ev, Step(e.chan, ev).value)
  {
    if ev.AppData? {
      SubmitFails(e.chan, ev.stream, ev.bytes);
    } else if ev.Receive? {
      match ev.packet
      case Data(stream, bytes) => DataKeepsEntry(e, stream, bytes);
      case Close => CloseFails(e.chan);
      case _ =>
    }
  }

  /** Going over the outbound cap fails the producers. */
  lemma SubmitFails(ch: Chan, stream: Stream, bytes: seq<Byte>)
    requires ch.entry.Some? && SubmitData(ch, stream, bytes).Ok? && SubmitData(ch, stream, bytes).value.chan.entry.None?
    ensures SubmitData(ch, stream, bytes).value.failAcks
  {
  }

  /** So does the peer's CLOSE. */
  lemma CloseFails(ch: Chan)
    requires ch.entry.Some? && ReceiveClose(ch).chan.entry.None?
    ensures ReceiveClose(ch).failAcks
  {
  }

  lemma DataKeepsEntry(e: Endpoint, stream: Stream, bytes: seq<Byte>)
    requires RecvInv(e) && Compliant(e, Data(stream, bytes)) && e.chan.entry.Some?
    ensures ReceiveData(e.chan, stream, bytes).chan.entry.Some?
  {
    NeverOverflows(e, Data(stream, bytes));
    ReceiveDataShape(e.chan, stream, bytes);
  }

  lemma SentGrows(e: Endpoint, ev: Event, f: Effect)
    requires Enabled(e.chan, ev)
    ensures DataLength(Record(e, ev, f).log.sent) >= DataLength(e.log.sent)
    ensures |Record(e, ev, f).log.submitted| >= |e.log.submitted|
  {
    SendFolds(e.log.sent, f.out);
  }

  /** Once an entry is gone it stays gone, and nothing is sent. */
  lemma EntryStaysGone(ch: Chan, ev: Event)
    requires Enabled(ch, ev) && Step(ch, ev).Ok? && ch.entry.None?
    ensures Step(ch, ev).value.chan.entry.None? && Step(ch, ev).value.out == []
  {
  }

  lemma SteppedLive(s: Producers, a: AckEvent)
    requires AckInv(s) && !s.failed && Possible(s, a) && Stepping(a)
    ensures Step(s.e.chan, EventOf(a)).Ok?
    ensures AckInv(Stepped(s, a))
  {
    var ev := EventOf(a);
    StepKeeps(s.e, ev);
    var f := Step(s.e.chan, ev).value;
    SentGrows(s.e, ev, f);
    if s.e.chan.entry.None? {
      EntryStaysGone(s.e.chan, ev);
    } else if f.chan.entry.None? && !f.failAcks {
      DrainedOrFailed(s.e, ev);
    } else {
      AbortRemoves(s.e, ev, f);
    }
  }

  lemma AbortRemoves(e: Endpoint, ev: Event, f: Effect)
    requires Enabled(e.chan, ev)
    ensures f.chan.entry.Some? ==> Record(e, ev, f).aborted == e.aborted
  {
  }

  lemma SteppedFailed(s: Producers, a: AckEvent)
    requires AckInv(s) && s.failed && Possible(s, a) && Stepping(a) && Step(s.e.chan, EventOf(a)).Ok?
    ensures AckInv(Stepped(s, a))
  {
    EntryStaysGone(s.e.chan, EventOf(a));
    NoneAdded(s.e.log.sent);
  }

  lemma AckedStep(s: Producers, a: AckEvent)
    requires Possible(s, a) && Stepping(a) && Step(s.e.chan, EventOf(a)).Ok? && AckInv(Stepped(s, a))
    ensures AckInv(AckStep(s, a).value)
  {
    var t := Stepped(s, a);
    if a.AckedData? && t.e.chan.entry.Some? {
      SentOrParked(t.e);
      AckedLive(t);
    }
  }

  /** The newest producer joins the parked ones, or is told at once. */
  lemma AckedLive(t: Producers)
    requires AckInv(t) && t.e.chan.entry.Some?
    ensures Waits(t.e.chan.entry) ==> AckInv(t.(parked := t.parked + [|t.e.log.submitted|]))
    ensures !Waits(t.e.chan.entry) && DataLength(t.e.log.sent) == |t.e.log.submitted| ==>
      AckInv(t.(acked := t.acked + [|t.e.log.submitted|]))
  {
  }

  /** The caller's guard: nobody is parked, or even the last one parked has all its bytes in packets. */
  predicate Backed(s: Producers) {
    s.parked == [] || s.parked[|s.parked| - 1] <= DataLength(s.e.log.sent)
  }

  lemma BackedMeansAll(s: Producers)
    requires Ordered(s.parked)
    ensures Backed(s) <==> AllWithin(s.parked, DataLength(s.e.log.sent))
  {
  }

  lemma OpenFailureKeeps(s: Producers)
    requires AckInv(s) && Backed(s)
    ensures AckInv(OpenFailed(s))
  {
    BackedMeansAll(s);
    if !s.failed {
      assert Payloads(s.e.log.sent) <= s.e.log.submitted;
    }
  }

  lemma AckStepKeeps(s: Producers, a: AckEvent)
    requires AckInv(s) && Possible(s, a) && AckStep(s, a).Ok? && (a.OpenFailure? ==> Backed(s))
    ensures AckInv(AckStep(s, a).value)
  {
    if a.OpenFailure? {
      OpenFailureKeeps(s);
    } else if a.Release? {
      if !s.failed {
        SentOrParked(s.e);
      }
    } else {
      if s.failed {
        SteppedFailed(s, a);
      } else {
        SteppedLive(s, a);
      }
      AckedStep(s, a);
    }
  }

  /** An open channel with nothing parked has sent everything. */
  lemma SentOrParked(e: Endpoint)
    requires EndpointInv(e)
    ensures e.chan.entry.Some? && e.chan.entry.value.pending == [] ==> DataLength(e.log.sent) == |e.log.submitted|
  {
    NoneAdded(Payloads(e.log.sent));
  }

  /** Once the channel is gone or drained, the next release answers everybody, and truthfully. */
  lemma NobodyLeftParked(s: Producers)
    requires AckInv(s) && !Waits(s.e.chan.entry)
    ensures
      var t := AckStep(s, Release).value;
      && t.parked == [] && t.acked == s.acked + s.parked
      && AllWithin(t.acked, DataLength(t.e.log.sent))
  {
    AckStepKeeps(s, Release);
  }

  predicate AckRuns(s: Producers, steps: seq<AckEvent>, t: Producers)
    decreases |steps|
  {
    if steps == [] then s == t
    else Possible(s, steps[0]) && AckStep(s, steps[0]).Ok? && AckRuns(AckStep(s, steps[0]).value, steps[1..], t)
  }

  /** CHANNEL_OPEN_FAILURE only ever finds producers it may leave parked. */
  predicate Guarded(s: Producers, steps: seq<AckEvent>)
    decreases |steps|
  {
    steps != [] && Possible(s, steps[0]) && AckStep(s, steps[0]).Ok? ==>
      (steps[0].OpenFailure? ==> Backed(s)) && Guarded(AckStep(s, steps[0]).value, steps[1..])
  }

  lemma {:induction false} AckRunKeeps(s: Producers, steps: seq<AckEvent>, t: Producers)
    requires AckInv(s) && AckRuns(s, steps, t) && Guarded(s, steps)
    ensures AckInv(t)
    decreases |steps|
  {
    if steps != [] {
      AckStepKeeps(s, steps[0]);
      AckRunKeeps(AckStep(s, steps[0]).value, steps[1..], t);
    }
  }

  /** In every guarded run, a producer told of success has all its bytes, and all those before it, in
      packets already sent; so discarded data is never acknowledged. */
  lemma AckedMeansSent(s: Producers, steps: seq<AckEvent>, t: Producers, i: nat)
    requires EndpointInv(s.e) && !s.e.aborted && s.parked == [] && s.acked == [] && !s.failed
    requires AckRuns(s, steps, t) && Guarded(s, steps) && i < |t.acked|
    ensures t.acked[i] <= |t.e.log.submitted|
    ensures t.e.log.submitted[..t.acked[i]] <= Payloads(t.e.log.sent)
  {
    AckRunKeeps(s, steps, t);
    assert Payloads(t.e.log.sent) <= t.e.log.submitted;
  }

  // ------------------------------------------------------- nobody is forgotten

  /** Producers are failed only when the channel goes. */
  lemma FailsOnlyClosed(ch: Chan, ev: Event)
    requires Enabled(ch, ev) && Step(ch, ev).Ok?
    ensures Step(ch, ev).value.failAcks ==> Step(ch, ev).value.chan.entry.None?
  {
    match ev
    case Receive(Data(stream, bytes), _) => DataFailsOnlyClosed(ch, stream, bytes);
    case Receive(Close, _) => CloseFailsOnlyClosed(ch);
    case Resolve(k) => PumpFailsOnlyClosed(ch, k);
    case _ =>
  }

  lemma DataFailsOnlyClosed(ch: Chan, stream: Stream, bytes: seq<Byte>)
    ensures ReceiveData(ch, stream, bytes).failAcks ==> ReceiveData(ch, stream, bytes).chan.entry.None?
  {
  }

  lemma CloseFailsOnlyClosed(ch: Chan)
    ensures ReceiveClose(ch).failAcks ==> ReceiveClose(ch).chan.entry.None?
  {
  }

  lemma PumpFailsOnlyClosed(ch: Chan, k: nat)
    requires k < |ch.reserves|
    ensures Pump(ch, k).failAcks ==> Pump(ch, k).chan.entry.None?
  {
  }

  function AckCalls(steps: seq<AckEvent>): nat {
    if steps == [] then 0 else (if steps[0].AckedData? then 1 else 0) + AckCalls(steps[1..])
  }

  /** A step on a channel that stays open answers or parks the producer it brings, at once exactly when nothing
      is parked, and loses none of the others. */
  lemma StepAnswers(s: Producers, a: AckEvent)
    requires Possible(s, a) && AckStep(s, a).Ok? && AckStep(s, a).value.e.chan.entry.Some?
    ensures
      var t := AckStep(s, a).value;
      && s.acked <= t.acked
      && |t.acked| + |t.parked| == |s.acked| + |s.parked| + (if a.AckedData? then 1 else 0)
      && (a.AckedData? ==> (t.parked == s.parked <==> t.e.chan.entry.value.pending == []))
  {
    if Stepping(a) {
      FailsOnlyClosed(s.e.chan, EventOf(a));
    }
  }

  /** Over any run that leaves the channel open, every producer that came has been answered or waits. */
  lemma {:induction false} NobodyForgotten(s: Producers, steps: seq<AckEvent>, t: Producers)
    requires AckRuns(s, steps, t) && t.e.chan.entry.Some?
    ensures |t.acked| + |t.parked| == |s.acked| + |s.parked| + AckCalls(steps)
    ensures s.e.chan.entry.Some?
    decreases |steps|
  {
    if steps != [] {
      NobodyForgotten(AckStep(s, steps[0]).value, steps[1..], t);
      StepAnswers(s, steps[0]);
      if Stepping(steps[0]) && s.e.chan.entry.None? {
        EntryStaysGone(s.e.chan, EventOf(steps[0]));
        assert false;
      }
    }
  }

  // ------------------------------------------------------- CHANNEL_OPEN_FAILURE

  /** Every success reported is true. */
  predicate Truthful(s: Producers) {
    AllWithin(s.acked, DataLength(s.e.log.sent))
  }

  /** Whatever happens afterwards, every success reported is true. */
  ghost predicate StaysTruthful(s: Producers) {
    forall steps: seq<AckEvent>, t: Producers :: AckRuns(s, steps, t) ==> Truthful(t)
  }

  /** After the failure the guard no longer matters. */
  lemma {:induction false} FailedRunKeeps(s: Producers, steps: seq<AckEvent>, t: Producers)
    requires AckInv(s) && s.failed && AckRuns(s, steps, t)
    ensures AckInv(t)
    decreases |steps|
  {
    if steps != [] {
      BackedMeansAll(s);
      AckStepKeeps(s, steps[0]);
      FailedRunKeeps(AckStep(s, steps[0]).value, steps[1..], t);
    }
  }

  /** In any state of a run, CHANNEL_OPEN_FAILURE for the channel leads to no false report, then or later, if
      and only if nobody is parked or the last one parked has all its bytes in packets. */
  lemma OpenFailureLies(s: Producers)
    requires AckInv(s)
    ensures StaysTruthful(OpenFailed(s)) <==> Backed(s)
  {
    var failed := OpenFailed(s);
    if Backed(s) {
      OpenFailureKeeps(s);
      forall steps: seq<AckEvent>, t: Producers | AckRuns(failed, steps, t)
        ensures Truthful(t)
      {
        FailedRunKeeps(failed, steps, t);
      }
    } else {
      var told := AckStep(failed, Release).value;
      assert [Release][1..] == [] && AckRuns(told, [], told);
      assert AckRuns(failed, [Release], told);
      assert told.acked[|s.acked| + |s.parked| - 1] == s.parked[|s.parked| - 1];
    }
  }

  /** The peer opened the channel with a two-byte window, four bytes were submitted, two of them sent:
      after CHANNEL_OPEN_FAILURE the producer is told that all four went out. */
  lemma OpenFailureExample() returns (told: Producers)
    ensures AckInv(Producers(FRESH, [], [], false))
    ensures AckRuns(Producers(FRESH, [], [], false), [AckedData(Main, FOUR), OpenFailure, Release], told)
    ensures told.acked == [4] && DataLength(told.e.log.sent) == 2
  {
    var s := Producers(FRESH, [], [], false);
    FreshProducers();
    var waiting := FourWait();
    told := AckStep(OpenFailed(waiting), Release).value;
    AckRunsOne(OpenFailed(waiting), Release, [], told);
    AckRunsOne(waiting, OpenFailure, [Release] + [], told);
    AckRunsOne(s, AckedData(Main, FOUR), [OpenFailure] + ([Release] + []), told);
    assert [AckedData(Main, FOUR)] + ([OpenFailure] + ([Release] + [])) == [AckedData(Main, FOUR), OpenFailure, Release];
  }

  lemma FourWait() returns (waiting: Producers)
    ensures AckStep(Producers(FRESH, [], [], false), AckedData(Main, FOUR)) == Ok(waiting)
    ensures waiting.parked == [4] && waiting.acked == [] && DataLength(waiting.e.log.sent) == 2
  {
    FourSubmitted();
    FourSent();
    waiting := AckStep(Producers(FRESH, [], [], false), AckedData(Main, FOUR)).value;
    assert |Tag(Main, FOUR)| == 4;
  }

  lemma AckRunsOne(s: Producers, a: AckEvent, rest: seq<AckEvent>, t: Producers)
    requires Possible(s, a) && AckStep(s, a).Ok? && AckRuns(AckStep(s, a).value, rest, t)
    ensures AckRuns(s, [a] + rest, t)
  {
    assert ([a] + rest)[1..] == rest;
  }

  lemma FreshProducers()
    ensures AckInv(Producers(FRESH, [], [], false))
  {
    OpenedInv(FRESH);
  }

  lemma FourSent()
    ensures SubmitData(FRESH.chan, Main, FOUR).Ok?
    ensures DataLength([] + SubmitData(FRESH.chan, Main, FOUR).value.out) == 2
  {
    FourSubmitted();
    assert [] + [BYTE, BYTE] == [BYTE] + [BYTE];
    PayloadsConcat([BYTE], [BYTE]);
    Singleton(BYTE);
  }
}
