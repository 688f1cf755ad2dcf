/**
 Two endpoints joined by two FIFO links, stepped by an arbitrary scheduler. The
 link invariant says that what one side sent is what the other received followed
 by what is in flight; with it, each side's own discipline makes it a compliant
 peer of the other, and the whole-system properties follow for every run.
 */
module FlowControl {
  import opened Common
  import opened Protocol
  import Outbound
  import opened Inbound
  import opened Channel
  import opened Endpoint
  import opened Sending
  import opened Receiving
  import opened Discipline

  /** `ab` carries packets from `a` to `b`, oldest first; `ba` the other way. */
  datatype Sys = Sys(a: Endpoint, b: Endpoint, ab: seq<Packet>, ba: seq<Packet>)

  /** A move of one side: a step of its own, or taking the oldest packet off its incoming link. */
  datatype Move = Own(ev: Event) | Take(notify: bool)

  /** `left` moves belong to `a`. */
  datatype Turn = Turn(left: bool, move: Move)

  function Swap(s: Sys): Sys {
    Sys(s.b, s.a, s.ba, s.ab)
  }

  predicate LeftReady(s: Sys, m: Move) {
    match m
    case Own(ev) => !ev.Receive? && Enabled(s.a.chan, ev)
    case Take(_) => s.ba != []
  }

  function LeftEvent(s: Sys, m: Move): Event
    requires LeftReady(s, m)
  {
    match m
    case Own(ev) => ev
    case Take(notify) => Receive(s.ba[0], notify)
  }

  /** What `a` emits goes to the end of its outgoing link. */
  function LeftNext(s: Sys, m: Move): Result<Sys, Outbound.Error>
    requires LeftReady(s, m)
  {
    var ev := LeftEvent(s, m);
    match Step(s.a.chan, ev)
    case Err(e) => Err(e)
    case Ok(f) => Ok(Sys(Record(s.a, ev, f), s.b, s.ab + f.out, if m.Take? then s.ba[1..] else s.ba))
  }

  predicate Ready(s: Sys, t: Turn) {
    LeftReady(if t.left then s else Swap(s), t.move)
  }

  function Next(s: Sys, t: Turn): Result<Sys, Outbound.Error>
    requires Ready(s, t)
  {
    if t.left then LeftNext(s, t.move)
    else
      match LeftNext(Swap(s), t.move)
      case Err(e) => Err(e)
      case Ok(n) => Ok(Swap(n))
  }

  /** The schedule `ts` leads from `s` to `t`. */
  predicate Runs(s: Sys, ts: seq<Turn>, t: Sys)
    decreases |ts|
  {
    if ts == [] then s == t
    else Ready(s, ts[0]) && Next(s, ts[0]).Ok? && Runs(Next(s, ts[0]).value, ts[1..], t)
  }

  lemma RunsOne(s: Sys, t: Turn, ts: seq<Turn>, u: Sys)
    requires Ready(s, t) && Next(s, t).Ok? && Runs(Next(s, t).value, ts, u)
    ensures Runs(s, [t] + ts, u)
  {
    assert ([t] + ts)[1..] == ts;
  }

  /** One step of `a`'s own, given its effect. */
  lemma OwnTurn(s: Sys, ev: Event, f: Effect)
    requires !ev.Receive? && Enabled(s.a.chan, ev) && Step(s.a.chan, ev) == Ok(f)
    ensures Ready(s, Turn(true, Own(ev)))
    ensures Next(s, Turn(true, Own(ev))) == Ok(Sys(Record(s.a, ev, f), s.b, s.ab + f.out, s.ba))
  {
  }

  /** One step of `b`'s own, given its effect. */
  lemma PeerTurn(s: Sys, ev: Event, f: Effect)
    requires !ev.Receive? && Enabled(s.b.chan, ev) && Step(s.b.chan, ev) == Ok(f)
    ensures Ready(s, Turn(false, Own(ev)))
    ensures Next(s, Turn(false, Own(ev))) == Ok(Sys(s.a, Record(s.b, ev, f), s.ab, s.ba + f.out))
  {
  }

  /** `b` takes a packet, given the effect. */
  lemma PeerTakes(s: Sys, notify: bool, f: Effect)
    requires s.ab != [] && Step(s.b.chan, Receive(s.ab[0], notify)) == Ok(f)
    ensures Ready(s, Turn(false, Take(notify)))
    ensures Next(s, Turn(false, Take(notify))) == Ok(Sys(s.a, Record(s.b, Receive(s.ab[0], notify), f), s.ab[1..], s.ba + f.out))
  {
  }

  /** A freshly confirmed channel: both sides advertised their window and packet size. */
  predicate Opened(e: Endpoint) {
    && e.chan.config.window <= U32_MAX
    && e.chan.config.window <= e.chan.config.maxPendingInbound
    && e.peer.maxPacket > 0
    && e.chan.entry.Some?
    && (var p := e.chan.entry.value;
        && p.recipientWindow == e.peer.window
        && p.senderWindow == e.chan.config.window
        && p.recipientMax == e.peer.maxPacket
        && p.confirmed && p.pending == [] && !p.pendingEof && !p.pendingClose)
    && e.chan.app == App(true, true, e.chan.app.capacity, []) && e.chan.app.capacity >= 1
    && e.chan.inbound.None? && e.chan.reserves == [] && !e.chan.rekeying
    && e.log == Log([], [], [], [], [], false, false)
    && !e.aborted
  }

  predicate Initial(s: Sys) {
    && Opened(s.a) && Opened(s.b)
    && s.a.peer.window == s.b.chan.config.window
    && s.b.peer.window == s.a.chan.config.window
    && s.ab == [] && s.ba == []
  }

  ghost predicate Reachable(s: Sys) {
    exists start: Sys, ts: seq<Turn> :: Initial(start) && Runs(start, ts, s)
  }

  // ----------------------------------------------------------- the invariant

  predicate SysInv(s: Sys) {
    && EndpointInv(s.a) && EndpointInv(s.b)
    && s.a.peer.window == s.b.chan.config.window
    && s.b.peer.window == s.a.chan.config.window
    && s.a.log.sent == s.b.log.rcvd + s.ab
    && s.b.log.sent == s.a.log.rcvd + s.ba
    && (s.a.log.stalled ==> s.a.log.cut) && (s.b.log.stalled ==> s.b.log.cut)
  }

  lemma OpenedInv(e: Endpoint)
    requires Opened(e)
    ensures EndpointInv(e)
  {
  }

  lemma InitialInv(s: Sys)
    requires Initial(s)
    ensures SysInv(s)
  {
    OpenedInv(s.a);
    OpenedInv(s.b);
  }

  lemma LinkFolds(sent: seq<Packet>, rcvd: seq<Packet>, link: seq<Packet>)
    requires sent == rcvd + link
    ensures DataLength(sent) == DataLength(rcvd) + DataLength(link)
    ensures Grants(sent) == Grants(rcvd) + Grants(link)
    ensures link != [] ==> DataLength(link) == |PayloadOf(link[0])| + DataLength(link[1..])
                           && Grants(link) == GrantOf(link[0]) + Grants(link[1..])
  {
    SendFolds(rcvd, link);
  }

  lemma NothingAfterClose(sent: seq<Packet>, rcvd: seq<Packet>, link: seq<Packet>)
    requires NoClose(sent) || EndsWithClose(sent)
    requires sent == rcvd + link && link != []
    ensures NoClose(rcvd)
  {
    var most := sent[..|sent| - 1];
    assert NoClose(most);
    assert forall i :: 0 <= i < |rcvd| ==> most[i] == rcvd[i];
  }

  /** A peer that keeps its discipline only ever puts compliant packets on the link. */
  lemma PeerIsCompliant(s: Sys)
    requires SysInv(s) && s.ba != []
    ensures Compliant(s.a, s.ba[0])
  {
    LinkFolds(s.b.log.sent, s.a.log.rcvd, s.ba);
    LinkFolds(s.a.log.sent, s.b.log.rcvd, s.ab);
    NothingAfterClose(s.b.log.sent, s.a.log.rcvd, s.ba);
  }

  lemma StepConfig(ch: Chan, ev: Event)
    requires Enabled(ch, ev) && Step(ch, ev).Ok?
    ensures Step(ch, ev).value.chan.config == ch.config
  {
  }

  lemma LeftKeeps(s: Sys, m: Move)
    requires SysInv(s) && LeftReady(s, m)
    ensures LeftNext(s, m).Ok?
    ensures SysInv(LeftNext(s, m).value)
  {
    var ev := LeftEvent(s, m);
    if m.Take? {
      PeerIsCompliant(s);
    }
    StepKeeps(s.a, ev);
    StepConfig(s.a.chan, ev);
    LinksExtend(s, m);
  }

  lemma LinksExtend(s: Sys, m: Move)
    requires s.a.log.sent == s.b.log.rcvd + s.ab && s.b.log.sent == s.a.log.rcvd + s.ba
    requires LeftReady(s, m) && LeftNext(s, m).Ok?
    ensures
      var t := LeftNext(s, m).value;
      && t.a.log.sent == t.b.log.rcvd + t.ab
      && t.b.log.sent == t.a.log.rcvd + t.ba
  {
    var f := Step(s.a.chan, LeftEvent(s, m)).value;
    Assoc(s.b.log.rcvd, s.ab, f.out);
    if m.Take? {
      Assoc(s.a.log.rcvd, [s.ba[0]], s.ba[1..]);
      assert [s.ba[0]] + s.ba[1..] == s.ba;
    }
  }

  /** No turn a scheduler can pick ever fails, and every one keeps the system invariant. */
  lemma TurnKeeps(s: Sys, t: Turn)
    requires SysInv(s) && Ready(s, t)
    ensures Next(s, t).Ok?
    ensures SysInv(Next(s, t).value)
  {
    LeftKeeps(if t.left then s else Swap(s), t.move);
  }

  lemma {:induction false} RunKeeps(s: Sys, ts: seq<Turn>, t: Sys)
    requires SysInv(s) && Runs(s, ts, t)
    ensures SysInv(t)
    decreases |ts|
  {
    if ts != [] {
      TurnKeeps(s, ts[0]);
      RunKeeps(Next(s, ts[0]).value, ts[1..], t);
    }
  }

  lemma ReachableInv(s: Sys)
    requires Reachable(s)
    ensures SysInv(s)
  {
    var start: Sys, ts: seq<Turn> :| Initial(start) && Runs(start, ts, s);
    InitialInv(start);
    RunKeeps(start, ts, s);
  }

  // --------------------------------------------------------------- mirroring

  function Flip(ts: seq<Turn>): seq<Turn> {
    seq(|ts|, i requires 0 <= i < |ts| => ts[i].(left := !ts[i].left))
  }

  lemma TurnMirrored(s: Sys, t: Turn)
    requires Ready(s, t) && Next(s, t).Ok?
    ensures Ready(Swap(s), Turn(!t.left, t.move))
    ensures Next(Swap(s), Turn(!t.left, t.move)) == Ok(Swap(Next(s, t).value))
  {
  }

  lemma {:induction false} RunsMirrored(s: Sys, ts: seq<Turn>, t: Sys)
    requires Runs(s, ts, t)
    ensures Runs(Swap(s), Flip(ts), Swap(t))
    decreases |ts|
  {
    if ts != [] {
      var n := Next(s, ts[0]).value;
      RunsMirrored(n, ts[1..], t);
      TurnMirrored(s, ts[0]);
      var first := Turn(!ts[0].left, ts[0].move);
      RunsOne(Swap(s), first, Flip(ts[1..]), Swap(t));
      assert Flip(ts) == [first] + Flip(ts[1..]);
    }
  }

  /** The system is symmetric, so everything said about one direction holds of the other. */
  lemma ReachableMirrored(s: Sys)
    requires Reachable(s)
    ensures Reachable(Swap(s))
  {
    var start: Sys, ts: seq<Turn> :| Initial(start) && Runs(start, ts, s);
    RunsMirrored(start, ts, s);
    assert Initial(Swap(start)) && Runs(Swap(start), Flip(ts), Swap(s));
  }

  // ----------------------------------------------------------- whole-run safety

  /** No turn available in a reachable state fails: neither `WrongChannel` nor `Inconsistent` is met. */
  lemma NeverFails(s: Sys, t: Turn)
    requires Reachable(s) && Ready(s, t)
    ensures Next(s, t).Ok?
  {
    ReachableInv(s);
    TurnKeeps(s, t);
  }

  /**
   Credit is conserved: what the sender may still send, plus data and grants in
   flight, is exactly what the receiver still admits; and undelivered bytes stay
   charged against the receiver's configured window.
   */
  lemma CreditConservation(s: Sys)
    requires Reachable(s)
    ensures s.a.chan.entry.Some? && s.b.chan.entry.Some? ==>
      s.a.chan.entry.value.recipientWindow + DataLength(s.ab) + Grants(s.ba) == s.b.chan.entry.value.senderWindow
    ensures s.b.chan.entry.Some? ==>
      s.b.chan.entry.value.senderWindow + PendingBytes(s.b.chan.inbound) <= s.b.chan.config.window
  {
    ReachableInv(s);
    LinkFolds(s.a.log.sent, s.b.log.rcvd, s.ab);
    LinkFolds(s.b.log.sent, s.a.log.rcvd, s.ba);
  }

  /** Both directions at once: the system is symmetric. */
  lemma CreditBothWays(s: Sys)
    requires Reachable(s) && s.a.chan.entry.Some? && s.b.chan.entry.Some?
    ensures s.a.chan.entry.value.recipientWindow + DataLength(s.ab) + Grants(s.ba) == s.b.chan.entry.value.senderWindow
    ensures s.b.chan.entry.value.recipientWindow + DataLength(s.ba) + Grants(s.ab) == s.a.chan.entry.value.senderWindow
  {
    CreditConservation(s);
    ReachableMirrored(s);
    CreditConservation(Swap(s));
  }

  /** Whatever arrives fits: data within the window and the pending cap, grants within 32 bits. */
  lemma ArrivalsFit(s: Sys)
    requires Reachable(s) && s.ab != []
    ensures s.ab[0].Data? && s.b.chan.entry.Some? ==> |s.ab[0].bytes| <= s.b.chan.entry.value.senderWindow
    ensures !s.ab[0].Adjust? ==>
      !Deliver(s.b.chan.app, s.b.chan.inbound, s.b.chan.config.maxPendingInbound, s.ab[0]).outcome.Overflow?
    ensures s.ab[0].Adjust? && s.b.chan.entry.Some? ==>
      s.b.chan.entry.value.recipientWindow + s.ab[0].amount <= U32_MAX
  {
    ReachableInv(s);
    PeerIsCompliant(Swap(s));
    if !s.ab[0].Adjust? {
      NeverOverflows(s.b, s.ab[0]);
    }
  }

  /** What one side may rely on about the other's packets, however the run went. */
  lemma TraceDiscipline(s: Sys)
    requires Reachable(s)
    ensures LegalData(s.a.log.sent, s.a.peer.maxPacket)
    ensures DataLength(s.a.log.sent) <= s.a.peer.window + Grants(s.a.log.rcvd)
    ensures forall i :: 0 <= i < |s.a.log.sent| && s.a.log.sent[i].Close? ==> i == |s.a.log.sent| - 1
    ensures s.a.chan.entry.Some? <==> NoClose(s.a.log.sent)
  {
    ReachableInv(s);
    if s.a.chan.entry.None? {
      OneClose(s.a.log.sent);
    }
  }

  lemma OneClose(sent: seq<Packet>)
    requires EndsWithClose(sent)
    ensures !NoClose(sent)
    ensures forall i :: 0 <= i < |sent| && sent[i].Close? ==> i == |sent| - 1
  {
    var most := sent[..|sent| - 1];
    assert forall i :: 0 <= i < |most| ==> most[i] == sent[i];
  }

  lemma CloseMarkLast(sent: seq<Packet>)
    requires EndsWithClose(sent)
    ensures var ms := Marks(sent, false); ms != [] && ms[|ms| - 1] == Closed
  {
    var most := sent[..|sent| - 1];
    assert sent == most + [Close];
    Singleton(Close);
    MarksConcat(most, [Close], false);
  }

  /** The inbound queue: contents, counters and its single reservation agree, and it stays small. */
  lemma QueueDiscipline(s: Sys)
    requires Reachable(s)
    ensures s.b.chan.inbound.Some? ==>
      var q := s.b.chan.inbound.value;
      && q.items != [] && q.reserving && s.b.chan.reserves == [q.generation]
      && q.pendingBytes == DataLength(q.items) <= s.b.chan.config.window
      && |q.items| <= q.pendingBytes + 2
    ensures s.b.chan.inbound.None? ==>
      |s.b.chan.reserves| <= 1 && (s.b.chan.app.present && s.b.chan.app.readerOpen ==> s.b.chan.reserves == [])
  {
    ReachableInv(s);
    if s.b.chan.inbound.Some? {
      var q := s.b.chan.inbound.value;
      QueueLength(q.items);
      ClosesBound(q.items);
    }
  }

  // ---------------------------------------------------------------- end to end

  /** Everything between the two applications, oldest first, leaving out what is still parked. */
  function Pipeline(s: Sys): seq<Packet> {
    s.b.log.read + Contents(s.b.chan.app.buffer) + Items(s.b.chan.inbound) + s.ab
  }

  lemma PipelineMarks(s: Sys)
    requires SysInv(s) && !s.b.log.cut
    ensures SameMarks(Pipeline(s), s.a.log.sent)
  {
    var seen := s.b.log.delivered + Items(s.b.chan.inbound);
    assert Pipeline(s) == seen + s.ab;
    EofsConcat(s.b.log.rcvd, s.ab);
    MarksConcat(seen, s.ab, false);
    MarksConcat(s.b.log.rcvd, s.ab, false);
    MarksConcat(seen, s.ab, true);
    MarksConcat(s.b.log.rcvd, s.ab, true);
  }

  /**
   End-to-end order: while delivery was not cut short, the bytes read, buffered,
   queued, in flight and parked are exactly the bytes submitted, in order and on
   their streams; after a close without abort nothing is missing either.
   */
  lemma EndToEndOrder(s: Sys)
    requires Reachable(s) && !s.b.log.cut
    ensures s.a.chan.entry.Some? ==>
      Payloads(s.b.log.read) + Payloads(Contents(s.b.chan.app.buffer)) + Payloads(Items(s.b.chan.inbound))
        + Payloads(s.ab) + Outbound.Backlog(s.a.chan.entry.value.pending) == s.a.log.submitted
    ensures s.a.chan.entry.None? ==> Payloads(Pipeline(s)) <= s.a.log.submitted
    ensures s.a.chan.entry.None? && !s.a.aborted ==> Payloads(Pipeline(s)) == s.a.log.submitted
  {
    ReachableInv(s);
    PipelineMarks(s);
    MarksDeterminePayloads(Pipeline(s), false);
    MarksDeterminePayloads(s.a.log.sent, false);
    var read, buffer, queue := s.b.log.read, Contents(s.b.chan.app.buffer), Items(s.b.chan.inbound);
    PayloadsConcat(read + buffer + queue, s.ab);
    PayloadsConcat(read + buffer, queue);
    PayloadsConcat(read, buffer);
  }

  /** EOF and CLOSE keep their place among the bytes, when the application ended its stream at most once. */
  lemma EndToEndControls(s: Sys)
    requires Reachable(s) && !s.b.log.cut
    ensures Marks(Pipeline(s), false) == Marks(s.a.log.sent, false)
    ensures Eofs(s.a.log.sent) <= 1 ==> Marks(Pipeline(s), true) == Marks(s.a.log.sent, true)
  {
    ReachableInv(s);
    PipelineMarks(s);
  }

  /** How often `a`'s application ended its stream in a schedule. */
  function EofCalls(ts: seq<Turn>): nat {
    if ts == [] then 0 else (if ts[0] == Turn(true, Own(AppEof)) then 1 else 0) + EofCalls(ts[1..])
  }

  lemma {:induction false} EofsAsked(s: Sys, ts: seq<Turn>, t: Sys)
    requires SysInv(s) && Runs(s, ts, t)
    ensures Eofs(t.a.log.sent) + EofDue(t.a.chan.entry) <= Eofs(s.a.log.sent) + EofDue(s.a.chan.entry) + EofCalls(ts)
    decreases |ts|
  {
    if ts != [] {
      TurnKeeps(s, ts[0]);
      if ts[0].left {
        var ev := LeftEvent(s, ts[0].move);
        if ts[0].move.Take? {
          PeerIsCompliant(s);
        }
        EofPaid(s.a, ev);
        EofsConcat(s.a.log.sent, Step(s.a.chan, ev).value.out);
      }
      EofsAsked(Next(s, ts[0]).value, ts[1..], t);
    }
  }

  /** Whatever the schedule, no more EOFs are sent than the application asked for; asked once, the receiving
      application observes EOF at its place among the bytes. */
  lemma EofOnce(start: Sys, ts: seq<Turn>, s: Sys)
    requires Initial(start) && Runs(start, ts, s)
    ensures Eofs(s.a.log.sent) <= EofCalls(ts)
    ensures EofCalls(ts) <= 1 && !s.b.log.cut ==> Marks(Pipeline(s), true) == Marks(s.a.log.sent, true)
  {
    InitialInv(start);
    EofsAsked(start, ts, s);
    assert Reachable(s);
    if !s.b.log.cut {
      EndToEndControls(s);
    }
  }

  lemma PipelineDrained(s: Sys)
    requires s.ab == [] && s.b.chan.inbound.None? && Contents(s.b.chan.app.buffer) == []
    ensures Pipeline(s) == s.b.log.read
  {
    NoneAdded(s.b.log.read);
  }

  /** A channel that was closed and drained delivered every submitted byte, then the close. */
  lemma ClosedMeansDelivered(s: Sys)
    requires Reachable(s) && !s.b.log.cut && !s.a.aborted
    requires s.ab == [] && s.b.chan.inbound.None? && Contents(s.b.chan.app.buffer) == []
    requires s.a.chan.entry.None?
    ensures Payloads(s.b.log.read) == s.a.log.submitted
    ensures var ms := Marks(s.b.log.read, false); ms != [] && ms[|ms| - 1] == Closed
  {
    EndToEndOrder(s);
    EndToEndControls(s);
    PipelineDrained(s);
    ReachableInv(s);
    CloseMarkLast(s.a.log.sent);
  }

  /**
   Deadlock freedom: once the links and the queue are empty, an open sender has
   nothing parked, provided the window is at least two bytes and the reader was
   not dropped in front of queued items.
   */
  lemma IdleMeansSent(s: Sys)
    requires Reachable(s)
    requires s.ab == [] && s.ba == [] && s.b.chan.inbound.None? && !s.a.chan.rekeying
    requires s.a.chan.entry.Some? && s.b.chan.entry.Some? && !s.b.log.stalled
    requires s.b.chan.config.window >= 2
    ensures s.a.chan.entry.value.pending == []
    ensures !s.a.chan.entry.value.pendingEof && !s.a.chan.entry.value.pendingClose
    ensures Payloads(s.a.log.sent) == s.a.log.submitted
  {
    CreditConservation(s);
    ReachableInv(s);
    var p := s.a.chan.entry.value;
    assert p.recipientWindow >= s.b.chan.config.window / 2 >= 1;
    NoneAdded(Payloads(s.a.log.sent));
  }
}
