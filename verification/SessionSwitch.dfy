/**
 A session that exchanges keys while it goes on working: the key exchange machine of
 either side, one channel, and the keepalive timer (russh/src/client/mod.rs,
 russh/src/server/mod.rs). What it seals, when it sends NEWKEYS and when it installs
 the new key follow from the run, and with them whether its peer can open everything.
 */
module SessionSwitch {
  import opened Common
  import opened Protocol
  import opened Wire
  import opened NameLists
  import opened Negotiation
  import opened KeyExchange
  import Framing
  import Outbound
  import opened Channel
  import opened Endpoint
  import opened Discipline
  import FlowControl
  import Rekeying
  import Starvation
  import K = KeySwitch

  // ------------------------------------------------------------- either machine

  datatype Party = ClientSide(c: Client) | ServerSide(s: Server)

  function CauseOf(p: Party): Cause {
    if p.ClientSide? then p.c.cause else p.s.cause
  }

  predicate Created(p: Party) {
    if p.ClientSide? then p.c.state.ClientCreated? else p.s.state.ServerCreated?
  }

  /** Own NEWKEYS is sent, the peer's has not arrived. */
  predicate AwaitsNewKeys(p: Party) {
    if p.ClientSide? then p.c.state.ClientWaitingForNewKeys? else p.s.state.ServerWaitingForNewKeys?
  }

  function NamesOf(p: Party): AlgNames
    requires AwaitsNewKeys(p)
  {
    if p.ClientSide? then p.c.state.newkeys.names else p.s.state.newkeys.names
  }

  function KexStep(p: Party, m: Msg, seqn: nat): Result<Progress<Party>, KexError> {
    if p.ClientSide? then
      match ClientStep(p.c, m, seqn)
      case Err(e) => Err(e)
      case Ok(NeedsReply(c, out, reset)) => Ok(NeedsReply(ClientSide(c), out, reset))
      case Ok(Done(hostKey, newkeys)) => Ok(Done(hostKey, newkeys))
    else
      match ServerStep(p.s, m, seqn)
      case Err(e) => Err(e)
      case Ok(NeedsReply(s, out, reset)) => Ok(NeedsReply(ServerSide(s), out, reset))
      case Ok(Done(hostKey, newkeys)) => Ok(Done(hostKey, newkeys))
  }

  /** NEWKEYS is the last message a machine sends, at the step that makes it wait; the sequence number
      restarts there if these names or an earlier exchange were strict; and only a waiting machine ends. */
  predicate Shaped(p: Party, r: Progress<Party>) {
    match r
    case Done(_, newkeys) => AwaitsNewKeys(p) && newkeys.names == NamesOf(p)
    case NeedsReply(q, out, reset) =>
      && CauseOf(q) == CauseOf(p) && !AwaitsNewKeys(p)
      && (if AwaitsNewKeys(q) then
            && out != [] && out[|out| - 1] == NewKeysMsg && NewKeysMsg !in out[..|out| - 1]
            && reset == (NamesOf(q).strict || StrictRekey(CauseOf(q)))
          else NewKeysMsg !in out)
  }

  lemma ClientShape(c: Client, m: Msg, seqn: nat)
    requires KexStep(ClientSide(c), m, seqn).Ok?
    ensures Shaped(ClientSide(c), KexStep(ClientSide(c), m, seqn).value)
  {
  }

  lemma ServerShape(s: Server, m: Msg, seqn: nat)
    requires KexStep(ServerSide(s), m, seqn).Ok?
    ensures Shaped(ServerSide(s), KexStep(ServerSide(s), m, seqn).value)
  {
  }

  lemma KexShape(p: Party, m: Msg, seqn: nat)
    requires KexStep(p, m, seqn).Ok?
    ensures Shaped(p, KexStep(p, m, seqn).value)
  {
    if p.ClientSide? {
      ClientShape(p.c, m, seqn);
    } else {
      ServerShape(p.s, m, seqn);
    }
  }

  // -------------------------------------------------------------------- sessions

  /** The running exchange if any, whether an exchange so far was strict, and the channel if one is open. */
  datatype Node = Node(kex: Option<Party>, strict: bool, e: Option<Endpoint>)

  /** What a session does: begin an exchange, take a message of it, open the channel, a step of the channel,
      the keepalive timer. */
  datatype Act = Begin(p: Party) | Kex(m: Msg, seqn: nat) | Open(e: Endpoint) | Work(ev: Event) | Keepalive

  predicate Awaits(n: Node) {
    n.kex.Some? && AwaitsNewKeys(n.kex.value)
  }

  /** `begin_rekey` hands the strictness so far to the new exchange; the beginning and the end of a
      re-exchange are not steps of the channel's own; the keepalive timer has no gate on re-exchanges. */
  predicate Can(n: Node, act: Act) {
    match act
    case Begin(p) =>
      n.kex.None? && Created(p) && StrictRekey(CauseOf(p)) == n.strict && (CauseOf(p).Initial? ==> n.e.None?)
    case Kex(m, seqn) => n.kex.Some? && KexStep(n.kex.value, m, seqn).Ok?
    case Open(e) => n.kex.None? && n.e.None? && FlowControl.Opened(e)
    case Work(ev) => n.e.Some? && Allowed(n.e.value, ev) && Step(n.e.value.chan, ev).Ok? && !ev.RekeyBegin? && !ev.RekeyEnd?
    case Keepalive => n.kex.Some? ==> CauseOf(n.kex.value).Rekey?
  }

  predicate NodeInv(n: Node) {
    && (n.kex.Some? ==> StrictRekey(CauseOf(n.kex.value)) == n.strict)
    && (n.e.Some? ==> EndpointInv(n.e.value) && n.e.value.chan.rekeying == n.kex.Some?)
  }

  /** `ps` packets sealed one after the other. */
  function Packets(ps: nat): seq<K.Kind> {
    if ps == 0 then [] else [K.Packet] + Packets(ps - 1)
  }

  /** Messages of an exchange; the reader restarts its sequence number by its own account of strictness. */
  function MsgKinds(out: seq<Msg>, writer: bool, reader: bool): seq<K.Kind> {
    if out == [] then []
    else [if out[0] == NewKeysMsg then K.Switch(writer, reader) else K.Packet] + MsgKinds(out[1..], writer, reader)
  }

  /** The channel's packets when an exchange begins or ends. */
  function Turned(e: Option<Endpoint>, ev: Event): seq<Protocol.Packet>
    requires e.Some? ==> Enabled(e.value.chan, ev) && Step(e.value.chan, ev).Ok?
  {
    if e.Some? then Step(e.value.chan, ev).value.out else []
  }

  function Moved(e: Option<Endpoint>, ev: Event): Option<Endpoint>
    requires e.Some? ==> Enabled(e.value.chan, ev) && Step(e.value.chan, ev).Ok?
  {
    if e.Some? then Some(Apply(e.value, ev)) else None
  }

  lemma TurnsOk(n: Node, ev: Event)
    requires NodeInv(n) && (if n.kex.Some? then ev.RekeyEnd? else ev.RekeyBegin?)
    ensures n.e.Some? ==>
      && Enabled(n.e.value.chan, ev) && Step(n.e.value.chan, ev).Ok?
      && EndpointInv(Apply(n.e.value, ev)) && Apply(n.e.value, ev).chan.rekeying == !n.kex.Some?
  {
    if n.e.Some? {
      StepKeeps(n.e.value, ev);
    }
  }

  /** What one act seals, in order, and the installation if it completes an exchange. */
  function Kinds(n: Node, act: Act): seq<K.Kind>
    requires NodeInv(n) && Can(n, act)
  {
    match act
    case Begin(_) => Packets(1)
    case Kex(m, seqn) => (
      match KexStep(n.kex.value, m, seqn).value
      case NeedsReply(q, out, reset) =>
        MsgKinds(out, reset, n.strict || (AwaitsNewKeys(q) && NamesOf(q).strict))
      case Done(_, _) =>
        TurnsOk(n, RekeyEnd);
        [K.Install] + Packets(|Turned(n.e, RekeyEnd)|))
    case Open(_) => []
    case Work(ev) => Packets(|Step(n.e.value.chan, ev).value.out|)
    case Keepalive => Packets(1)
  }

  function Next(n: Node, act: Act): Node
    requires NodeInv(n) && Can(n, act)
  {
    match act
    case Begin(p) =>
      TurnsOk(n, RekeyBegin);
      n.(kex := Some(p), e := Moved(n.e, RekeyBegin))
    case Kex(m, seqn) => (
      match KexStep(n.kex.value, m, seqn).value
      case NeedsReply(q, _, _) => n.(kex := Some(q))
      case Done(_, newkeys) =>
        TurnsOk(n, RekeyEnd);
        Node(None, n.strict || newkeys.names.strict, Moved(n.e, RekeyEnd)))
    case Open(e) => n.(e := Some(e))
    case Work(ev) => n.(e := Some(Apply(n.e.value, ev)))
    case Keepalive => n
  }

  lemma WorkKeepsRekeying(ch: Chan, ev: Event)
    requires Enabled(ch, ev) && Step(ch, ev).Ok? && !ev.RekeyBegin? && !ev.RekeyEnd?
    ensures Step(ch, ev).value.chan.rekeying == ch.rekeying
  {
  }

  lemma NextKeeps(n: Node, act: Act)
    requires NodeInv(n) && Can(n, act)
    ensures NodeInv(Next(n, act))
  {
    match act
    case Begin(_) => TurnsOk(n, RekeyBegin);
    case Kex(m, seqn) =>
      KexShape(n.kex.value, m, seqn);
      if KexStep(n.kex.value, m, seqn).value.Done? {
        TurnsOk(n, RekeyEnd);
      }
    case Open(e) => FlowControl.OpenedInv(e);
    case Work(ev) =>
      StepKeeps(n.e.value, ev);
      WorkKeepsRekeying(n.e.value.chan, ev);
    case Keepalive =>
  }

  // ------------------------------------------------------------------------ runs

  predicate Runs(n: Node, acts: seq<Act>)
    requires NodeInv(n)
    decreases |acts|
  {
    acts != [] ==>
      Can(n, acts[0]) && (NextKeeps(n, acts[0]); Runs(Next(n, acts[0]), acts[1..]))
  }

  /** The stream a run writes. */
  function Stream(n: Node, acts: seq<Act>): seq<K.Kind>
    requires NodeInv(n) && Runs(n, acts)
    decreases |acts|
  {
    if acts == [] then []
    else
      NextKeeps(n, acts[0]);
      Kinds(n, acts[0]) + Stream(Next(n, acts[0]), acts[1..])
  }

  /** An act outside the exchange that puts a packet on the wire. */
  predicate Emits(n: Node, act: Act)
    requires Can(n, act)
  {
    act.Keepalive? || (act.Work? && Step(n.e.value.chan, act.ev).value.out != [])
  }

  /** Nothing is put on the wire while the session waits for NEWKEYS. */
  predicate Silent(n: Node, acts: seq<Act>)
    requires NodeInv(n) && Runs(n, acts)
    decreases |acts|
  {
    acts != [] ==>
      !(Awaits(n) && Emits(n, acts[0])) && (NextKeeps(n, acts[0]); Silent(Next(n, acts[0]), acts[1..]))
  }

  // ----------------------------------------------------------- streams in pieces

  /** Whether a writer that has sealed `ks` waits. */
  function Ends(ks: seq<K.Kind>, waiting: bool): bool {
    if ks == [] then waiting
    else Ends(ks[1..], if ks[0].Packet? then waiting else ks[0].Switch?)
  }

  lemma {:induction false} Joined(a: seq<K.Kind>, b: seq<K.Kind>, waiting: bool)
    ensures K.Alternates(a + b, waiting) <==> K.Alternates(a, waiting) && K.Alternates(b, Ends(a, waiting))
    ensures K.Quiet(a + b, waiting) <==> K.Quiet(a, waiting) && K.Quiet(b, Ends(a, waiting))
    ensures Ends(a + b, waiting) == Ends(b, Ends(a, waiting))
  {
    if a == [] {
      assert a + b == b;
    } else {
      Joined(a[1..], b, if a[0].Packet? then waiting else a[0].Switch?);
      assert (a + b)[0] == a[0] && (a + b)[1..] == a[1..] + b;
    }
  }

  lemma {:induction false} OnlyPackets(ps: nat, waiting: bool)
    ensures K.Alternates(Packets(ps), waiting) && Ends(Packets(ps), waiting) == waiting
    ensures K.Quiet(Packets(ps), waiting) <==> !waiting || ps == 0
  {
    if ps > 0 {
      OnlyPackets(ps - 1, waiting);
      assert Packets(ps)[1..] == Packets(ps - 1);
    }
  }

  /** Messages sent while the machine does not wait, NEWKEYS at most last. */
  lemma {:induction false} Messages(out: seq<Msg>, writer: bool, reader: bool, last: bool)
    requires last ==> out != [] && out[|out| - 1] == NewKeysMsg && NewKeysMsg !in out[..|out| - 1] && writer == reader
    requires !last ==> NewKeysMsg !in out
    ensures K.Alternates(MsgKinds(out, writer, reader), false) && K.Quiet(MsgKinds(out, writer, reader), false)
    ensures Ends(MsgKinds(out, writer, reader), false) == last
  {
    if out != [] {
      var ks := MsgKinds(out, writer, reader);
      assert ks[1..] == MsgKinds(out[1..], writer, reader);
      if |out| > 1 {
        assert last ==> out[0] == out[..|out| - 1][0];
        assert last ==> out[1..][..|out| - 2] == out[..|out| - 1][1..];
        Messages(out[1..], writer, reader, last);
      }
    }
  }

  /** One act: its piece of the stream is in order, leads where the machine goes, and seals nothing while
      waiting unless the act emits something then. */
  lemma ActKinds(n: Node, act: Act)
    requires NodeInv(n) && Can(n, act)
    ensures K.Alternates(Kinds(n, act), Awaits(n)) && Ends(Kinds(n, act), Awaits(n)) == Awaits(Next(n, act))
    ensures K.Quiet(Kinds(n, act), Awaits(n)) <==> !(Awaits(n) && Emits(n, act))
  {
    match act
    case Begin(_) => OnlyPackets(1, false);
    case Kex(m, seqn) => KexKinds(n, m, seqn);
    case Open(_) =>
    case Work(ev) => OnlyPackets(|Step(n.e.value.chan, ev).value.out|, Awaits(n));
    case Keepalive => OnlyPackets(1, Awaits(n));
  }

  lemma KexKinds(n: Node, m: Msg, seqn: nat)
    requires NodeInv(n) && Can(n, Kex(m, seqn))
    ensures
      var ks := Kinds(n, Kex(m, seqn));
      K.Alternates(ks, Awaits(n)) && K.Quiet(ks, Awaits(n)) && Ends(ks, Awaits(n)) == Awaits(Next(n, Kex(m, seqn)))
  {
    KexShape(n.kex.value, m, seqn);
    match KexStep(n.kex.value, m, seqn).value
    case NeedsReply(q, out, reset) =>
      Messages(out, reset, n.strict || (AwaitsNewKeys(q) && NamesOf(q).strict), AwaitsNewKeys(q));
    case Done(_, _) =>
      TurnsOk(n, RekeyEnd);
      var more := Packets(|Turned(n.e, RekeyEnd)|);
      OnlyPackets(|Turned(n.e, RekeyEnd)|, false);
      assert ([K.Install] + more)[1..] == more;
  }

  lemma {:induction false} StreamShape(n: Node, acts: seq<Act>)
    requires NodeInv(n) && Runs(n, acts)
    ensures K.Alternates(Stream(n, acts), Awaits(n))
    ensures K.Quiet(Stream(n, acts), Awaits(n)) <==> Silent(n, acts)
    decreases |acts|
  {
    if acts != [] {
      NextKeeps(n, acts[0]);
      ActKinds(n, acts[0]);
      StreamShape(Next(n, acts[0]), acts[1..]);
      Joined(Kinds(n, acts[0]), Stream(Next(n, acts[0]), acts[1..]), Awaits(n));
    }
  }

  /**
   Over any run of either side, with any number of exchanges, strict or not, and any
   traffic in between: the peer opens every packet with the key and sequence number it
   was sealed with if and only if nothing was put on the wire while the session
   waited for the peer's NEWKEYS.
   */
  lemma AgreesIff(n: Node, acts: seq<Act>, epoch: nat, seqn: nat)
    requires NodeInv(n) && Runs(n, acts)
    ensures
      var ks := Stream(n, acts);
      K.Seals(ks, epoch, seqn) == K.Opens(ks, K.Ahead(epoch, Awaits(n)), seqn) <==> Silent(n, acts)
  {
    StreamShape(n, acts);
    K.SwitchIff(Stream(n, acts), epoch, seqn, Awaits(n));
  }

  /** In bytes: whatever a silent run writes, under whatever keys, the peer reads back. */
  lemma SilentReads<S(!new)>(n: Node, acts: seq<Act>, k: K.Epochs<S>, ops: seq<K.Op>, epoch: nat, e: Framing.End<S>, rest: Bytes)
    requires NodeInv(n) && Runs(n, acts) && Silent(n, acts)
    requires K.KindsOf(k, ops, epoch) == Stream(n, acts)
    requires K.AllFit(k, ops, epoch) && forall n: nat :: Framing.Lawful(k.key(n))
    ensures K.Reads(k, ops, epoch, e, Awaits(n), rest)
  {
    StreamShape(n, acts);
    K.ReadsAcrossSwitches(k, ops, epoch, e, Awaits(n), rest);
  }

  // ------------------------------------------------------------ a run that differs

  const NAMES := AlgNames([], [], [], [], [], [], [], false, false)

  /** Key agreement with nothing to agree on: it satisfies the laws. */
  const CRYPTO := Crypto(
    (n: Name, g: Option<Group>, a: Bytes) => [],
    (n: Name, g: Option<Group>, b: Bytes, a: Bytes) => Response([], []),
    (n: Name, g: Option<Group>, a: Bytes, b: Bytes) => [],
    (n: Name, h: Bytes, x: Exchange, s: Bytes) => [],
    (k: Bytes) => k,
    (k: Bytes, h: Bytes) => [],
    (k: Bytes, h: Bytes, s: Bytes) => true,
    (n: Name) => false,
    (n: Name) => true,
    (g: Group) => 0)

  /** The server's side of a re-exchange. */
  const SERVER := Server(
    (b: Bytes, strict: bool) => Some(NAMES), CRYPTO, Rekey(false, []), [],
    (n: Name) => Some([]), (g: GexParams) => None,
    Exchange([], [], [], [], [], [], None), ServerCreated)

  lemma LawsMet()
    ensures CryptoLaws(CRYPTO)
  {
  }

  /** The server reads KEXINIT and the client's key agreement message, and waits for NEWKEYS. */
  lemma ServerWaits(server: Server) returns (asked: Server, waiting: Server, reply: Msg)
    requires server == SERVER.(cause := server.cause) && !StrictRekey(server.cause)
    ensures KexStep(ServerSide(server), KexInitMsg([]), 1) == Ok(NeedsReply(ServerSide(asked), [], false))
    ensures KexStep(ServerSide(asked), DhInit(false, []), 2)
         == Ok(NeedsReply(ServerSide(waiting), [reply, NewKeysMsg], false))
    ensures waiting.state.ServerWaitingForNewKeys? && waiting.state.newkeys.names == NAMES && waiting.cause == server.cause
  {
    asked := ServerStep(server, KexInitMsg([]), 1).value.kex;
    var r := ServerStep(asked, DhInit(false, []), 2).value;
    waiting, reply := r.kex, r.out[0];
  }

  lemma RunsOne(n: Node, act: Act, acts: seq<Act>)
    requires NodeInv(n) && Can(n, act) && NodeInv(Next(n, act)) && Runs(Next(n, act), acts)
    ensures Runs(n, [act] + acts)
    ensures Silent(n, [act] + acts) ==> !(Awaits(n) && Emits(n, act)) && Silent(Next(n, act), acts)
  {
    assert ([act] + acts)[1..] == acts;
  }

  /** A session that has done nothing yet. */
  const NEW := Node(None, false, None)

  /** A connection is set up, and its channel opened, before anything else. */
  lemma SetUp(acts: seq<Act>) returns (all: seq<Act>)
    requires NodeInv(Node(None, false, Some(Starvation.FRESH))) && Runs(Node(None, false, Some(Starvation.FRESH)), acts)
    requires !Silent(Node(None, false, Some(Starvation.FRESH)), acts)
    ensures Runs(NEW, all) && !Silent(NEW, all)
  {
    RunsOne(NEW, Open(Starvation.FRESH), acts);
    all := FirstExchange([Open(Starvation.FRESH)] + acts);
  }

  /** The first exchange, seen from the server. */
  lemma FirstExchange(acts: seq<Act>) returns (all: seq<Act>)
    requires Runs(NEW, acts) && !Silent(NEW, acts)
    ensures Runs(NEW, all) && !Silent(NEW, all)
  {
    var first := SERVER.(cause := Initial);
    var asked, waiting, reply := ServerWaits(first);
    RunsOne(NEW.(kex := Some(ServerSide(waiting))), Kex(NewKeysMsg, 3), acts);
    all := [Kex(NewKeysMsg, 3)] + acts;
    RunsOne(NEW.(kex := Some(ServerSide(asked))), Kex(DhInit(false, []), 2), all);
    all := [Kex(DhInit(false, []), 2)] + all;
    RunsOne(NEW.(kex := Some(ServerSide(first))), Kex(KexInitMsg([]), 1), all);
    all := [Kex(KexInitMsg([]), 1)] + all;
    RunsOne(NEW, Begin(ServerSide(first)), all);
    all := [Begin(ServerSide(first))] + all;
  }

  /** The server's machine goes on to NEWKEYS over a parked submission, and a window adjustment arrives. */
  lemma AdjustedWhileWaiting(parked: Node) returns (acts: seq<Act>)
    requires NodeInv(parked) && parked.kex == Some(ServerSide(SERVER)) && parked.e.Some?
    requires parked.e.value.chan.entry == Some(Starvation.FRESH.chan.entry.value.(pending := [Outbound.Chunk(Starvation.FOUR, Main, 0)]))
    requires parked.e.value.log.sent == [] && parked.e.value.log.rcvd == [] && parked.e.value.peer == Starvation.FRESH.peer
    ensures Runs(parked, acts) && !Silent(parked, acts)
  {
    var adjust := Work(Receive(Adjust(1), false));
    var asked, waiting, reply := ServerWaits(SERVER);
    var one := Next(parked, Kex(KexInitMsg([]), 1));
    NextKeeps(parked, Kex(KexInitMsg([]), 1));
    var two := Next(one, Kex(DhInit(false, []), 2));
    NextKeeps(one, Kex(DhInit(false, []), 2));
    ReleasedWhileWaiting(two);
    NextKeeps(two, adjust);
    RunsOne(two, adjust, []);
    RunsOne(one, Kex(DhInit(false, []), 2), [adjust] + []);
    RunsOne(parked, Kex(KexInitMsg([]), 1), [Kex(DhInit(false, []), 2)] + ([adjust] + []));
    acts := [Kex(KexInitMsg([]), 1)] + ([Kex(DhInit(false, []), 2)] + ([adjust] + []));
  }

  /** On a fresh channel the server begins a re-exchange and its application submits four bytes, which are
      parked. */
  lemma SpeaksWhileWaiting() returns (acts: seq<Act>)
    ensures
      var n := Node(None, false, Some(Starvation.FRESH));
      NodeInv(n) && Runs(n, acts) && !Silent(n, acts)
  {
    var n := Node(None, false, Some(Starvation.FRESH));
    FlowControl.OpenedInv(Starvation.FRESH);
    var begun := Next(n, Begin(ServerSide(SERVER)));
    NextKeeps(n, Begin(ServerSide(SERVER)));
    var parked, submit := ParksFour(begun);
    acts := AdjustedWhileWaiting(parked);
    RunsOne(begun, submit, acts);
    acts := [submit] + acts;
    RunsOne(n, Begin(ServerSide(SERVER)), acts);
    acts := [Begin(ServerSide(SERVER))] + acts;
  }

  /** A run from the start of a connection, with lawful key agreement, whose packets the peer does not open
      as they were sealed. */
  lemma DiffersExists(epoch: nat, seqn: nat) returns (acts: seq<Act>)
    ensures CryptoLaws(CRYPTO) && Runs(NEW, acts)
    ensures K.Seals(Stream(NEW, acts), epoch, seqn) != K.Opens(Stream(NEW, acts), epoch, seqn)
  {
    LawsMet();
    var later := SpeaksWhileWaiting();
    acts := SetUp(later);
    AgreesIff(NEW, acts, epoch, seqn);
  }

  /** Four bytes submitted during the exchange are parked although the window is open. */
  lemma ParksFour(n: Node) returns (m: Node, submit: Act)
    requires NodeInv(n) && n.kex.Some? && n.e.Some?
    requires n.e.value == Apply(Starvation.FRESH, RekeyBegin)
    ensures Can(n, submit) && Next(n, submit) == m && NodeInv(m) && m == n.(e := m.e) && m.e.Some?
    ensures m.e.value.chan.entry == Some(Starvation.FRESH.chan.entry.value.(pending := [Outbound.Chunk(Starvation.FOUR, Main, 0)]))
    ensures m.e.value.log.sent == [] && m.e.value.log.rcvd == [] && m.e.value.peer == Starvation.FRESH.peer
  {
    submit := Work(AppData(Main, Starvation.FOUR));
    FourTaken(n.e.value);
    NextKeeps(n, submit);
    m := Next(n, submit);
  }

  lemma FourTaken(e: Endpoint)
    requires e == Apply(Starvation.FRESH, RekeyBegin)
    ensures
      var ev := AppData(Main, Starvation.FOUR);
      && Allowed(e, ev) && Step(e.chan, ev).Ok?
      && Apply(e, ev).chan.entry == Some(Starvation.FRESH.chan.entry.value.(pending := [Outbound.Chunk(Starvation.FOUR, Main, 0)]))
      && Apply(e, ev).log.sent == [] && Apply(e, ev).log.rcvd == [] && Apply(e, ev).peer == Starvation.FRESH.peer
  {
    FourParked(e.chan);
  }

  lemma FourParked(ch: Chan)
    requires ch == Starvation.FRESH.chan.(rekeying := true)
    ensures
      var parked := [Outbound.Chunk(Starvation.FOUR, Main, 0)];
      && |Outbound.Backlog(parked)| == 4
      && SubmitData(ch, Main, Starvation.FOUR) == Ok(Effect(ch.(entry := Some(ch.entry.value.(pending := parked))), [], [], false))
  {
    var parked := Outbound.Chunk(Starvation.FOUR, Main, 0);
    assert [] + [parked] == [parked] && [parked][1..] == [];
    assert Outbound.Backlog([parked]) == Outbound.Unsent(parked) + Outbound.Backlog([]);
    assert |Outbound.Unsent(parked)| == 4;
  }

  /** One more byte of window releases what is parked, exchange or not. */
  lemma ReleasedWhileWaiting(n: Node)
    requires NodeInv(n) && n.kex.Some? && n.e.Some?
    requires n.e.value.chan.entry == Some(Starvation.FRESH.chan.entry.value.(pending := [Outbound.Chunk(Starvation.FOUR, Main, 0)]))
    requires n.e.value.log.sent == [] && n.e.value.log.rcvd == [] && n.e.value.peer == Starvation.FRESH.peer
    ensures Can(n, Work(Receive(Adjust(1), false))) && Emits(n, Work(Receive(Adjust(1), false)))
  {
    var ev := Receive(Adjust(1), false);
    FourParked(Starvation.FRESH.chan.(rekeying := true));
    assert Compliant(n.e.value, Adjust(1));
    Rekeying.DataDuringRekey(n.e.value, ev);
  }
}
