/**
 Client and server key exchange run to completion against each other. Both follow
 a script fixed by their configurations; the proof walks every interleaving of
 deliveries along it.
 */
module TwoPartyExchange {
  import opened Common
  import opened Wire
  import opened NameLists
  import opened Negotiation
  import opened KeyExchange

  /** Two freshly created exchanges, and what they will agree on. */
  datatype Setup = Setup(client: Client, server: Server, names: AlgNames, group: Option<Group>, key: Bytes)

  /** Agreeing configurations: one transcript so far, one cause, the same negotiated names on both sides, a
      host key for them, and for a group exchange a group within the client's limits. */
  ghost predicate Agreeing(u: Setup) {
    && u.client.crypto == u.server.crypto
    && CryptoLaws(u.client.crypto)
    && u.client.state == ClientCreated && u.server.state == ServerCreated
    && u.client.cause == u.server.cause
    && Fresh(u)
    && u.client.negotiate(u.server.exchange.serverKexInit, StrictRekey(u.client.cause)) == Some(u.names)
    && u.server.negotiate(u.client.exchange.clientKexInit, StrictRekey(u.server.cause)) == Some(u.names)
    && u.client.crypto.known(u.names.kex) && !u.names.ignoreGuessed
    && u.server.hostKey(u.names.key) == Some(u.key)
    && (IsGex(u) ==>
          && u.group.Some? && u.server.lookup(u.client.gexParams) == u.group
          && u.client.gexParams.min <= u.client.crypto.bits(u.group.value) <= u.client.gexParams.max)
    && (!IsGex(u) ==> u.group.None?)
  }

  /** Identifiers are exchanged, each side has sent its own KEXINIT, nothing else happened. */
  predicate Fresh(u: Setup) {
    var x, y := u.client.exchange, u.server.exchange;
    && x == Exchange(x.clientId, x.serverId, x.clientKexInit, [], [], [], None)
    && y == Exchange(x.clientId, x.serverId, [], y.serverKexInit, [], [], None)
  }

  predicate IsGex(u: Setup) {
    u.client.crypto.isGex(u.names.kex)
  }

  // --------------------------------------------------------------- the script

  function Ephemeral(u: Setup): Bytes {
    u.client.crypto.initiate(u.names.kex, u.group, u.client.secret)
  }

  function Answer(u: Setup): Response {
    u.client.crypto.respond(u.names.kex, u.group, u.server.secret, Ephemeral(u))
  }

  function GexOf(u: Setup): Option<Gex> {
    if u.group.Some? then Some(Gex(u.client.gexParams, u.group.value)) else None
  }

  /** The transcript both sides end with. */
  function Transcript(u: Setup): Exchange {
    Exchange(u.client.exchange.clientId, u.client.exchange.serverId, u.client.exchange.clientKexInit,
             u.server.exchange.serverKexInit, Ephemeral(u), Answer(u).message, GexOf(u))
  }

  /** The keys both sides end with. */
  function Agreed(u: Setup): NewKeys {
    var hash := u.client.crypto.hash(u.names.kex, u.client.crypto.publicKey(u.key), Transcript(u), Answer(u).shared);
    NewKeys(u.names, Transcript(u), hash, Answer(u).shared, SessionId(u.client.cause, hash))
  }

  /** Number of messages each side reads. */
  function Length(u: Setup): nat {
    if IsGex(u) then 4 else 3
  }

  function ClientScript(u: Setup): (r: seq<Msg>)
    requires IsGex(u) ==> u.group.Some?
    ensures |r| == Length(u)
  {
    [KexInitMsg(u.client.exchange.clientKexInit)]
    + (if IsGex(u) then [GexRequest(u.client.gexParams)] else [])
    + [DhInit(IsGex(u), Ephemeral(u)), NewKeysMsg]
  }

  function ServerScript(u: Setup): (r: seq<Msg>)
    requires IsGex(u) ==> u.group.Some?
    ensures |r| == Length(u)
  {
    [KexInitMsg(u.server.exchange.serverKexInit)]
    + (if IsGex(u) then [GexGroup(u.group.value)] else [])
    + [DhReply(IsGex(u), u.client.crypto.publicKey(u.key), Answer(u).message, u.client.crypto.sign(u.key, Agreed(u).hash)), NewKeysMsg]
  }

  /** How many messages of its script a side has sent after reading `i`. */
  function ClientSent(u: Setup, i: nat): nat {
    Min(i + 1, Length(u))
  }

  function ServerSent(u: Setup, j: nat): nat {
    if j == 0 then 1 else if j + 1 >= Length(u) then Length(u) else j
  }

  datatype Side<T> = Running(kex: T) | Finished(hostKey: Option<Bytes>, newkeys: NewKeys)

  function HostKey(u: Setup): Bytes {
    u.client.crypto.publicKey(u.key)
  }

  /** The client after reading `i` messages of the server's script. */
  function ClientAt(u: Setup, i: nat): Side<Client> {
    var x := Transcript(u);
    var seen := u.client.exchange.(serverKexInit := x.serverKexInit);
    if i == 0 then Running(u.client)
    else if i == Length(u) then Finished(Some(HostKey(u)), Agreed(u))
    else if i + 1 == Length(u) then Running(u.client.(exchange := x, state := ClientWaitingForNewKeys(HostKey(u), Agreed(u))))
    else if i + 2 == Length(u) then
      Running(u.client.(exchange := seen.(clientEphemeral := x.clientEphemeral, gex := x.gex), state := WaitingForDhReply(u.names)))
    else Running(u.client.(exchange := seen, state := WaitingForGexReply(u.names)))
  }

  /** The server after reading `j` messages of the client's script. */
  function ServerAt(u: Setup, j: nat): Side<Server> {
    var x := Transcript(u);
    var seen := u.server.exchange.(clientKexInit := x.clientKexInit);
    if j == 0 then Running(u.server)
    else if j == Length(u) then Finished(None, Agreed(u))
    else if j + 1 == Length(u) then Running(u.server.(exchange := x, state := ServerWaitingForNewKeys(Agreed(u))))
    else if j + 2 == Length(u) then Running(u.server.(exchange := seen.(gex := x.gex), state := WaitingForDhInit(u.names)))
    else Running(u.server.(exchange := seen, state := WaitingForGexRequest(u.names)))
  }

  /** The next side and the messages it sends, or the error, when a running side takes a message. */
  datatype Turned<T> = Turned(side: Side<T>, out: seq<Msg>, reset: bool)

  function Turn<T>(r: Result<Progress<T>, KexError>): Result<Turned<T>, KexError> {
    match r
    case Err(e) => Err(e)
    case Ok(NeedsReply(kex, out, reset)) => Ok(Turned(Running(kex), out, reset))
    case Ok(Done(hostKey, newkeys)) => Ok(Turned(Finished(hostKey, newkeys), [], false))
  }

  /** Whether reading the next message makes a side send NEWKEYS under a strict exchange. */
  predicate Resets(u: Setup, i: nat) {
    i + 2 == Length(u) && (u.names.strict || StrictRekey(u.client.cause))
  }

  lemma ClientMoves(u: Setup, i: nat)
    requires Agreeing(u) && i < Length(u)
    ensures ClientAt(u, i).Running?
    ensures Turn(ClientStep(ClientAt(u, i).kex, ServerScript(u)[i], i + 1))
         == Ok(Turned(ClientAt(u, i + 1), ClientScript(u)[ClientSent(u, i)..ClientSent(u, i + 1)], Resets(u, i)))
  {
    assert AgreementAt(u.client.crypto, u.names.kex, u.group, u.client.secret, u.server.secret);
    var out := ClientScript(u)[ClientSent(u, i)..ClientSent(u, i + 1)];
    if i + 1 == Length(u) {
      assert out == [];
    } else {
      assert out == [ClientScript(u)[i + 1]];
    }
  }

  lemma ServerMoves(u: Setup, j: nat)
    requires Agreeing(u) && j < Length(u)
    ensures ServerAt(u, j).Running?
    ensures Turn(ServerStep(ServerAt(u, j).kex, ClientScript(u)[j], j + 1))
         == Ok(Turned(ServerAt(u, j + 1), ServerScript(u)[ServerSent(u, j)..ServerSent(u, j + 1)], Resets(u, j)))
  {
    var script := ServerScript(u);
    var out := script[ServerSent(u, j)..ServerSent(u, j + 1)];
    if j + 2 == Length(u) {
      assert out == [script[Length(u) - 2], NewKeysMsg];
    } else if j == 1 {
      assert out == [script[1]];
    } else {
      assert out == [];
    }
  }

  // ---------------------------------------------------------------- the network

  /** Both sides, the links, how many messages each has read, and whether each was told to reset its
      outgoing sequence number. */
  datatype Net = Net(
    client: Side<Client>, server: Side<Server>, toServer: seq<Msg>, toClient: seq<Msg>,
    readC: nat, readS: nat, resetC: bool, resetS: bool)

  /** A side can take a message while its exchange is running. */
  predicate Ready(n: Net, left: bool) {
    if left then n.client.Running? && n.toClient != [] else n.server.Running? && n.toServer != []
  }

  function Deliver(n: Net, left: bool): Result<Net, KexError>
    requires Ready(n, left)
  {
    if left then
      match Turn(ClientStep(n.client.kex, n.toClient[0], n.readC + 1))
      case Err(e) => Err(e)
      case Ok(t) => Ok(n.(client := t.side, toServer := n.toServer + t.out, toClient := n.toClient[1..],
                          readC := n.readC + 1, resetC := n.resetC || t.reset))
    else
      match Turn(ServerStep(n.server.kex, n.toServer[0], n.readS + 1))
      case Err(e) => Err(e)
      case Ok(t) => Ok(n.(server := t.side, toClient := n.toClient + t.out, toServer := n.toServer[1..],
                          readS := n.readS + 1, resetS := n.resetS || t.reset))
  }

  /** Both KEXINIT messages are on their way. */
  function Start(u: Setup): Net {
    Net(Running(u.client), Running(u.server), [KexInitMsg(u.client.exchange.clientKexInit)],
        [KexInitMsg(u.server.exchange.serverKexInit)], 0, 0, false, false)
  }

  /** The network after the client read `i` and the server `j` messages. */
  ghost predicate At(u: Setup, n: Net, i: nat, j: nat)
    requires IsGex(u) ==> u.group.Some?
  {
    && i <= ServerSent(u, j) && j <= ClientSent(u, i) && i <= Length(u) && j <= Length(u)
    && ServerSent(u, j) <= Length(u)
    && n.client == ClientAt(u, i) && n.server == ServerAt(u, j)
    && n.toServer == ClientScript(u)[j..ClientSent(u, i)]
    && n.toClient == ServerScript(u)[i..ServerSent(u, j)]
    && n.readC == i && n.readS == j
    && (n.resetC <==> i + 1 >= Length(u) && Strict(u))
    && (n.resetS <==> j + 1 >= Length(u) && Strict(u))
  }

  predicate Strict(u: Setup) {
    u.names.strict || StrictRekey(u.client.cause)
  }

  lemma StartsAt(u: Setup)
    requires Agreeing(u)
    ensures At(u, Start(u), 0, 0)
  {
  }

  lemma Slices(s: seq<Msg>, a: nat, b: nat)
    requires a < b <= |s|
    ensures s[a..b][0] == s[a] && s[a..b][1..] == s[a + 1..b]
  {
  }

  lemma Joined(s: seq<Msg>, a: nat, b: nat, c: nat)
    requires a <= b <= c <= |s|
    ensures s[a..b] + s[b..c] == s[a..c]
  {
  }

  lemma ClientNext(u: Setup, n: Net, i: nat, j: nat)
    requires Agreeing(u) && At(u, n, i, j) && Ready(n, true)
    ensures Deliver(n, true) == Ok(n.(
      client := ClientAt(u, i + 1), readC := i + 1, resetC := n.resetC || Resets(u, i), toClient := n.toClient[1..],
      toServer := n.toServer + ClientScript(u)[ClientSent(u, i)..ClientSent(u, i + 1)]))
  {
    ClientMoves(u, i);
    Slices(ServerScript(u), i, ServerSent(u, j));
  }

  lemma ClientTakes(u: Setup, n: Net, i: nat, j: nat)
    requires Agreeing(u) && At(u, n, i, j) && Ready(n, true)
    ensures Deliver(n, true).Ok?
    ensures At(u, Deliver(n, true).value, i + 1, j)
  {
    ClientNext(u, n, i, j);
    Slices(ServerScript(u), i, ServerSent(u, j));
    Joined(ClientScript(u), j, ClientSent(u, i), ClientSent(u, i + 1));
  }

  lemma ServerNext(u: Setup, n: Net, i: nat, j: nat)
    requires Agreeing(u) && At(u, n, i, j) && Ready(n, false)
    ensures Deliver(n, false) == Ok(n.(
      server := ServerAt(u, j + 1), readS := j + 1, resetS := n.resetS || Resets(u, j), toServer := n.toServer[1..],
      toClient := n.toClient + ServerScript(u)[ServerSent(u, j)..ServerSent(u, j + 1)]))
  {
    ServerMoves(u, j);
    Slices(ClientScript(u), j, ClientSent(u, i));
  }

  lemma ServerTakes(u: Setup, n: Net, i: nat, j: nat)
    requires Agreeing(u) && At(u, n, i, j) && Ready(n, false)
    ensures Deliver(n, false).Ok?
    ensures At(u, Deliver(n, false).value, i, j + 1)
  {
    ServerNext(u, n, i, j);
    Slices(ClientScript(u), j, ClientSent(u, i));
    Joined(ServerScript(u), i, ServerSent(u, j), ServerSent(u, j + 1));
  }

  ghost predicate NetRuns(n: Net, turns: seq<bool>, m: Net)
    decreases |turns|
  {
    if turns == [] then n == m
    else Ready(n, turns[0]) && Deliver(n, turns[0]).Ok? && NetRuns(Deliver(n, turns[0]).value, turns[1..], m)
  }

  lemma {:induction false} RunStaysOnScript(u: Setup, n: Net, i: nat, j: nat, turns: seq<bool>, m: Net)
      returns (i': nat, j': nat)
    requires Agreeing(u) && At(u, n, i, j) && NetRuns(n, turns, m)
    ensures At(u, m, i', j') && i' + j' == i + j + |turns|
    decreases |turns|
  {
    if turns == [] {
      i', j' := i, j;
    } else if turns[0] {
      ClientTakes(u, n, i, j);
      i', j' := RunStaysOnScript(u, Deliver(n, true).value, i + 1, j, turns[1..], m);
    } else {
      ServerTakes(u, n, i, j);
      i', j' := RunStaysOnScript(u, Deliver(n, false).value, i, j + 1, turns[1..], m);
    }
  }

  predicate ClientSentNewKeys(side: Side<Client>) {
    side.Finished? || side.kex.state.ClientWaitingForNewKeys?
  }

  predicate ServerSentNewKeys(side: Side<Server>) {
    side.Finished? || side.kex.state.ServerWaitingForNewKeys?
  }

  lemma ResetsWithNewKeys(u: Setup, m: Net, i: nat, j: nat)
    requires Agreeing(u) && At(u, m, i, j)
    ensures (m.resetC <==> Strict(u) && ClientSentNewKeys(m.client)) && (m.resetS <==> Strict(u) && ServerSentNewKeys(m.server))
  {
  }

  /**
   Every interleaving of deliveries between agreeing endpoints meets no unexpected
   message, stops after at most eight deliveries, and when nothing is left to
   deliver both sides hold the same keys and the client has been shown the public
   half of the server's host key. At every point a side has been told to reset its
   sequence number exactly when it has sent NEWKEYS and the exchange is strict.
   */
  lemma ExchangeCompletes(u: Setup, turns: seq<bool>, m: Net)
    requires Agreeing(u) && NetRuns(Start(u), turns, m)
    ensures |turns| <= 2 * Length(u) <= 8
    ensures forall left :: Ready(m, left) ==> Deliver(m, left).Ok?
    ensures (m.resetC <==> Strict(u) && ClientSentNewKeys(m.client)) && (m.resetS <==> Strict(u) && ServerSentNewKeys(m.server))
    ensures !Ready(m, true) && !Ready(m, false) ==>
      && m.client == Finished(Some(HostKey(u)), Agreed(u)) && m.server == Finished(None, Agreed(u))
      && m.resetC == m.resetS == Strict(u)
      && |turns| == 2 * Length(u)
  {
    StartsAt(u);
    var i, j := RunStaysOnScript(u, Start(u), 0, 0, turns, m);
    ResetsWithNewKeys(u, m, i, j);
    if Ready(m, true) {
      ClientTakes(u, m, i, j);
    }
    if Ready(m, false) {
      ServerTakes(u, m, i, j);
    }
  }

  /** Both ends hold one session identifier: the first exchange hash, unchanged by any rekey. */
  lemma ExchangeIdentity(u: Setup, turns: seq<bool>, m: Net)
    requires Agreeing(u) && NetRuns(Start(u), turns, m) && m.client.Finished? && m.server.Finished?
    ensures m.client.newkeys == m.server.newkeys
    ensures u.client.cause.Rekey? ==> m.client.newkeys.sessionId == u.client.cause.sessionId
    ensures u.client.cause.Initial? ==> m.client.newkeys.sessionId == m.client.newkeys.hash
  {
    ExchangeCompletes(u, turns, m);
  }

  /** One exchange of a connection, run to its end in any order of deliveries. */
  datatype Round = Round(setup: Setup, turns: seq<bool>, end: Net)

  ghost predicate Completed(r: Round) {
    && Agreeing(r.setup) && NetRuns(Start(r.setup), r.turns, r.end)
    && r.end.client.Finished? && r.end.server.Finished?
  }

  /** The exchanges of one connection: an initial one, then rekeys, each side passing on the identifier it
      has from the round before. */
  ghost predicate Connection(rs: seq<Round>) {
    && rs != [] && rs[0].setup.client.cause.Initial?
    && (forall k :: 0 <= k < |rs| ==> Completed(rs[k]))
    && (forall k :: 1 <= k < |rs| ==> Continues(rs[k - 1].end, rs[k].setup))
  }

  predicate Continues(before: Net, u: Setup) {
    && u.client.cause.Rekey? && u.server.cause.Rekey? && before.client.Finished? && before.server.Finished?
    && u.client.cause.sessionId == before.client.newkeys.sessionId
    && u.server.cause.sessionId == before.server.newkeys.sessionId
  }

  /** However often a connection rekeys, both ends keep the hash of its first exchange as session identifier. */
  lemma {:induction false} SessionIdForLife(rs: seq<Round>, k: nat)
    requires Connection(rs) && k < |rs|
    ensures rs[k].end.client.Finished? && rs[k].end.server.Finished? && rs[0].end.client.Finished?
    ensures rs[k].end.client.newkeys.sessionId == rs[0].end.client.newkeys.hash
    ensures rs[k].end.server.newkeys.sessionId == rs[0].end.client.newkeys.hash
    decreases k
  {
    assert Completed(rs[k]) && Completed(rs[0]);
    ExchangeIdentity(rs[k].setup, rs[k].turns, rs[k].end);
    if k > 0 {
      SessionIdForLife(rs, k - 1);
      assert Continues(rs[k - 1].end, rs[k].setup);
    }
  }

  // ------------------------------------------------------- from configurations

  /** An endpoint whose KEXINIT and whose reading of the peer's are those of `party`. */
  ghost predicate Negotiates(negotiate: (Bytes, bool) -> Option<AlgNames>, party: Party) {
    forall b: Bytes, strictRekey: bool :: negotiate(b, strictRekey) == ReadKex(party, b, strictRekey)
  }

  /** Endpoints configured with preferences that have something in common, key exchange tables that know
      it, and host keys behind what the server advertises, agree in the sense above. */
  lemma ConfigurationsAgree(u: Setup, c: Party, s: Party, cookieC: Bytes, cookieS: Bytes)
    requires !c.server && s.server && Negotiation.Sendable(c) && Negotiation.Sendable(s) && |cookieC| == |cookieS| == 16
    requires forall n :: c.needsMac(n) == s.needsMac(n)
    requires Negotiates(u.client.negotiate, c) && Negotiates(u.server.negotiate, s)
    requires u.client.exchange.clientKexInit == KexInit(c, cookieC) && u.server.exchange.serverKexInit == KexInit(s, cookieS)
    requires u.client.crypto == u.server.crypto && CryptoLaws(u.client.crypto) && u.client.cause == u.server.cause
    requires u.client.state == ClientCreated && u.server.state == ServerCreated && Fresh(u)
    requires ReadKex(c, KexInit(s, cookieS), StrictRekey(u.client.cause)) == Some(u.names)
    requires u.client.crypto.known(u.names.kex)
    requires forall n :: s.hasKey(n) <==> u.server.hostKey(n).Some?
    requires u.server.hostKey(u.names.key).Some? ==> u.server.hostKey(u.names.key) == Some(u.key)
    requires if IsGex(u) then
               && u.group.Some? && u.server.lookup(u.client.gexParams) == u.group
               && u.client.gexParams.min <= u.client.crypto.bits(u.group.value) <= u.client.gexParams.max
             else u.group.None?
    ensures Agreeing(u)
  {
    var strictRekey := StrictRekey(u.client.cause);
    NegotiationAgrees(c, s, cookieC, cookieS, strictRekey);
    ChosenKeyIsHeld(c, s, strictRekey, u.names);
  }

  lemma ChosenKeyIsHeld(c: Party, s: Party, strictRekey: bool, names: AlgNames)
    requires FirstChoices(c, s, strictRekey, names)
    ensures s.hasKey(names.key)
  {
    assert names.key in Filter(c.pref.key, Provable(s));
  }
}
