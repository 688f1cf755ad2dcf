/**
 The key exchange state machines (russh/src/client/kex.rs, russh/src/server/kex.rs)
 run against each other over FIFO links. Key agreement, hash and signatures are
 parameters with their usual laws; negotiation is the one of `Negotiation`.
 */
module KeyExchange {
  import opened Common
  import opened Wire
  import opened NameLists
  import opened Negotiation

  datatype Group = Group(prime: Bytes, generator: Bytes)

  datatype GexParams = GexParams(min: nat, preferred: nat, max: nat)

  datatype Gex = Gex(params: GexParams, group: Group)

  /** Everything the exchange hash covers besides the host key and the shared secret. */
  datatype Exchange = Exchange(
    clientId: Bytes, serverId: Bytes, clientKexInit: Bytes, serverKexInit: Bytes,
    clientEphemeral: Bytes, serverEphemeral: Bytes, gex: Option<Gex>)

  datatype Response = Response(message: Bytes, shared: Bytes)

  /** Key agreement in three moves, the exchange hash, and host key signatures. */
  datatype Crypto = Crypto(
    initiate: (Name, Option<Group>, Bytes) -> Bytes,
    respond: (Name, Option<Group>, Bytes, Bytes) -> Response,
    finish: (Name, Option<Group>, Bytes, Bytes) -> Bytes,
    hash: (Name, Bytes, Exchange, Bytes) -> Bytes,
    publicKey: Bytes -> Bytes,
    sign: (Bytes, Bytes) -> Bytes,
    verify: (Bytes, Bytes, Bytes) -> bool,
    isGex: Name -> bool,
    known: Name -> bool,
    bits: Group -> nat)

  /** Both sides derive one secret, and a signature verifies under the signer's public key. */
  ghost predicate CryptoLaws(y: Crypto) {
    && (forall n: Name, g: Option<Group>, a: Bytes, b: Bytes :: AgreementAt(y, n, g, a, b))
    && (forall k: Bytes, h: Bytes :: y.verify(y.publicKey(k), h, y.sign(k, h)))
  }

  ghost predicate AgreementAt(y: Crypto, n: Name, g: Option<Group>, a: Bytes, b: Bytes) {
    var r := y.respond(n, g, b, y.initiate(n, g, a));
    y.finish(n, g, a, r.message) == r.shared
  }

  datatype Cause = Initial | Rekey(strict: bool, sessionId: Bytes)

  predicate StrictRekey(c: Cause) {
    c.Rekey? && c.strict
  }

  datatype Msg =
    | KexInitMsg(bytes: Bytes)
    | GexRequest(params: GexParams)
    | GexGroup(group: Group)
    | DhInit(gex: bool, ephemeral: Bytes)
    | DhReply(gex: bool, hostKey: Bytes, ephemeral: Bytes, signature: Bytes)
    | NewKeysMsg

  /** The result of an exchange: names, transcript, hash, secret and the session identifier. */
  datatype NewKeys = NewKeys(names: AlgNames, exchange: Exchange, hash: Bytes, shared: Bytes, sessionId: Bytes)

  datatype KexError =
    | UnexpectedMessage | NegotiationFailed | StrictViolation | UnknownAlgo
    | BadGroup | NoGroup | NoHostKey | WrongServerSig

  /** `Done` hands a client the host key that signed the exchange. */
  datatype Progress<T> = NeedsReply(kex: T, out: seq<Msg>, resetSeqn: bool) | Done(hostKey: Option<Bytes>, newkeys: NewKeys)

  /** The session identifier is the first exchange hash, for good. */
  function SessionId(cause: Cause, hash: Bytes): Bytes {
    if cause.Rekey? then cause.sessionId else hash
  }

  // ------------------------------------------------------------------- client

  datatype ClientState =
    | ClientCreated
    | WaitingForGexReply(names: AlgNames)
    | WaitingForDhReply(names: AlgNames)
    | ClientWaitingForNewKeys(hostKey: Bytes, newkeys: NewKeys)

  /** `negotiate` is `read_kex` with the client's preferences. */
  datatype Client = Client(
    negotiate: (Bytes, bool) -> Option<AlgNames>, crypto: Crypto, cause: Cause, gexParams: GexParams, secret: Bytes,
    exchange: Exchange, state: ClientState)

  /** Our first key agreement message, for a group if one was negotiated. */
  function ClientDh(c: Client, names: AlgNames, group: Option<Group>): Progress<Client> {
    var e := c.crypto.initiate(names.kex, group, c.secret);
    NeedsReply(c.(exchange := c.exchange.(clientEphemeral := e), state := WaitingForDhReply(names)),
               [DhInit(c.crypto.isGex(names.kex), e)], false)
  }

  /** `ClientKex::step`; `seqn` is the sequence number after the message was read. */
  function ClientStep(c: Client, m: Msg, seqn: nat): Result<Progress<Client>, KexError> {
    match c.state
    case ClientCreated =>
      if !m.KexInitMsg? then Err(UnexpectedMessage)
      else
        var d := c.(exchange := c.exchange.(serverKexInit := m.bytes));
        match c.negotiate(m.bytes, StrictRekey(c.cause)) {
          case None => Err(NegotiationFailed)
          case Some(names) =>
            if names.strict && !c.cause.Rekey? && seqn != 1 then Err(StrictViolation)
            else if !c.crypto.known(names.kex) then Err(UnknownAlgo)
            else if c.crypto.isGex(names.kex) then
              Ok(NeedsReply(d.(state := WaitingForGexReply(names)), [GexRequest(c.gexParams)], false))
            else Ok(ClientDh(d, names, None))
        }
    case WaitingForGexReply(names) =>
      if !m.GexGroup? then Err(UnexpectedMessage)
      else if !(c.gexParams.min <= c.crypto.bits(m.group) <= c.gexParams.max) then Err(BadGroup)
      else Ok(ClientDh(c.(exchange := c.exchange.(gex := Some(Gex(c.gexParams, m.group)))), names, Some(m.group)))
    case WaitingForDhReply(names) =>
      if names.ignoreGuessed then
        Ok(NeedsReply(c.(state := WaitingForDhReply(names.(ignoreGuessed := false))), [], false))
      else if !m.DhReply? || m.gex != c.crypto.isGex(names.kex) then Err(UnexpectedMessage)
      else
        var x := c.exchange.(serverEphemeral := m.ephemeral);
        var group := if x.gex.Some? then Some(x.gex.value.group) else None;
        var shared := c.crypto.finish(names.kex, group, c.secret, m.ephemeral);
        var hash := c.crypto.hash(names.kex, m.hostKey, x, shared);
        if !c.crypto.verify(m.hostKey, hash, m.signature) then Err(WrongServerSig)
        else
          var newkeys := NewKeys(names, x, hash, shared, SessionId(c.cause, hash));
          Ok(NeedsReply(c.(exchange := x, state := ClientWaitingForNewKeys(m.hostKey, newkeys)), [NewKeysMsg],
                        names.strict || StrictRekey(c.cause)))
    case ClientWaitingForNewKeys(hostKey, newkeys) =>
      if m != NewKeysMsg then Err(UnexpectedMessage) else Ok(Done(Some(hostKey), newkeys))
  }

  // ------------------------------------------------------------------- server

  datatype ServerState =
    | ServerCreated
    | WaitingForGexRequest(names: AlgNames)
    | WaitingForDhInit(names: AlgNames)
    | ServerWaitingForNewKeys(newkeys: NewKeys)

  datatype Server = Server(
    negotiate: (Bytes, bool) -> Option<AlgNames>, crypto: Crypto, cause: Cause, secret: Bytes,
    hostKey: Name -> Option<Bytes>, lookup: GexParams -> Option<Group>,
    exchange: Exchange, state: ServerState)

  /** `ServerKex::step`; `hostKey` finds the first configured key for an algorithm. */
  function ServerStep(s: Server, m: Msg, seqn: nat): Result<Progress<Server>, KexError> {
    match s.state
    case ServerCreated =>
      if !m.KexInitMsg? then Err(UnexpectedMessage)
      else
        var d := s.(exchange := s.exchange.(clientKexInit := m.bytes));
        match s.negotiate(m.bytes, StrictRekey(s.cause)) {
          case None => Err(NegotiationFailed)
          case Some(names) =>
            if names.strict && !s.cause.Rekey? && seqn != 1 then Err(StrictViolation)
            else if !s.crypto.known(names.kex) then Err(UnknownAlgo)
            else if s.crypto.isGex(names.kex) then Ok(NeedsReply(d.(state := WaitingForGexRequest(names)), [], false))
            else Ok(NeedsReply(d.(state := WaitingForDhInit(names)), [], false))
        }
    case WaitingForGexRequest(names) =>
      if !m.GexRequest? then Err(UnexpectedMessage)
      else
        match s.lookup(m.params) {
          case None => Err(NoGroup)
          case Some(group) =>
            Ok(NeedsReply(
              s.(exchange := s.exchange.(gex := Some(Gex(m.params, group))), state := WaitingForDhInit(names)),
              [GexGroup(group)], false))
        }
    case WaitingForDhInit(names) =>
      if names.ignoreGuessed then
        Ok(NeedsReply(s.(state := WaitingForDhInit(names.(ignoreGuessed := false))), [], false))
      else if !m.DhInit? || m.gex != s.crypto.isGex(names.kex) then Err(UnexpectedMessage)
      else
        var group := if s.exchange.gex.Some? then Some(s.exchange.gex.value.group) else None;
        var r := s.crypto.respond(names.kex, group, s.secret, m.ephemeral);
        var x := s.exchange.(clientEphemeral := m.ephemeral, serverEphemeral := r.message);
        match s.hostKey(names.key) {
          case None => Err(NoHostKey)
          case Some(key) =>
            var public := s.crypto.publicKey(key);
            var hash := s.crypto.hash(names.kex, public, x, r.shared);
            var newkeys := NewKeys(names, x, hash, r.shared, SessionId(s.cause, hash));
            Ok(NeedsReply(
              s.(exchange := x, state := ServerWaitingForNewKeys(newkeys)),
              [DhReply(s.crypto.isGex(names.kex), public, r.message, s.crypto.sign(key, hash)), NewKeysMsg],
              names.strict || StrictRekey(s.cause)))
        }
    case ServerWaitingForNewKeys(newkeys) =>
      if m != NewKeysMsg then Err(UnexpectedMessage) else Ok(Done(None, newkeys))
  }

  // ------------------------------------------------------ against any peer at all

  /** A client fed whatever messages a peer sends, from the `i`-th on; the first is read as number `seqn`. */
  function ClientRun(c: Client, ms: seq<Msg>, i: nat, seqn: nat): Result<Progress<Client>, KexError>
    requires i <= |ms|
    decreases |ms| - i
  {
    if i == |ms| then Ok(NeedsReply(c, [], false))
    else
      match ClientStep(c, ms[i], seqn + i + 1)
      case Err(e) => Err(e)
      case Ok(NeedsReply(next, _, _)) => ClientRun(next, ms, i + 1, seqn)
      case Ok(Done(hostKey, newkeys)) => if i + 1 == |ms| then Ok(Done(hostKey, newkeys)) else Err(UnexpectedMessage)
  }

  predicate SignedBy(y: Crypto, nk: NewKeys, hostKey: Bytes, signature: Bytes) {
    nk.hash == y.hash(nk.names.kex, hostKey, nk.exchange, nk.shared) && y.verify(hostKey, nk.hash, signature)
  }

  /** Negotiated names, the guess flag aside: it is cleared once the guessed packet was skipped. */
  predicate SameExceptGuess(negotiated: Option<AlgNames>, names: AlgNames) {
    && negotiated.Some? && negotiated.value.(ignoreGuessed := names.ignoreGuessed) == names
    && (names.ignoreGuessed ==> negotiated.value.ignoreGuessed)
  }

  /** A client that started as `c0` with sequence number `seqn`: the first message read was the peer's
      KEXINIT, the names come from it and from nothing else, and a strict initial exchange had nothing
      before it. */
  ghost predicate Opening(c0: Client, ms: seq<Msg>, seqn: nat, x: Exchange, names: AlgNames) {
    && ms != [] && ms[0] == KexInitMsg(x.serverKexInit)
    && SameExceptGuess(c0.negotiate(x.serverKexInit, StrictRekey(c0.cause)), names) && c0.crypto.known(names.kex)
    && (names.strict && c0.cause.Initial? ==> seqn == 0)
    && x.clientKexInit == c0.exchange.clientKexInit
    && x.clientId == c0.exchange.clientId && x.serverId == c0.exchange.serverId
  }

  function GroupOf(x: Exchange): Option<Group> {
    if x.gex.Some? then Some(x.gex.value.group) else None
  }

  /** The group of an exchange: the second message read, within the bounds the client asked for, if the
      method negotiates one; and our key agreement message was made for it. */
  ghost predicate Grouped(c0: Client, ms: seq<Msg>, x: Exchange, names: AlgNames) {
    && (if c0.crypto.isGex(names.kex) then
          && |ms| > 1 && ms[1].GexGroup? && x.gex == Some(Gex(c0.gexParams, ms[1].group))
          && c0.gexParams.min <= c0.crypto.bits(ms[1].group) <= c0.gexParams.max
        else x.gex == c0.exchange.gex)
    && x.clientEphemeral == c0.crypto.initiate(names.kex, if c0.crypto.isGex(names.kex) then GroupOf(x) else None, c0.secret)
  }

  /** How many messages follow the KEXINIT before our key agreement message is answered: a group if one is
      negotiated, and a wrongly guessed packet once it was skipped. */
  function Between(c0: Client, names: AlgNames, serverKexInit: Bytes): nat {
    var negotiated := c0.negotiate(serverKexInit, StrictRekey(c0.cause));
    (if c0.crypto.isGex(names.kex) then 1 else 0)
    + (if negotiated.Some? && negotiated.value.ignoreGuessed && !names.ignoreGuessed then 1 else 0)
  }

  /** After reading `n` messages, the client holds keys whose transcript, its own KEXINIT and the one it
      negotiated from included, was signed by `hostKey`, both key and signature taken from the last message
      read; and `n` is what the negotiated exchange demands. */
  ghost predicate Authentic(c0: Client, ms: seq<Msg>, n: nat, seqn: nat, hostKey: Bytes, nk: NewKeys) {
    && Opening(c0, ms, seqn, nk.exchange, nk.names) && Grouped(c0, ms, nk.exchange, nk.names)
    && n == 2 + Between(c0, nk.names, nk.exchange.serverKexInit) <= |ms| && !nk.names.ignoreGuessed
    && nk.sessionId == SessionId(c0.cause, nk.hash)
    && ms[n - 1].DhReply? && nk.exchange.serverEphemeral == ms[n - 1].ephemeral
    && nk.shared == c0.crypto.finish(nk.names.kex, GroupOf(nk.exchange), c0.secret, ms[n - 1].ephemeral)
    && ms[n - 1].hostKey == hostKey && SignedBy(c0.crypto, nk, hostKey, ms[n - 1].signature)
  }

  /** What holds of a client that started as `c0`, whatever `n` messages it has read since. */
  ghost predicate OnTrack(c0: Client, c: Client, ms: seq<Msg>, n: nat, seqn: nat) {
    && c == c0.(exchange := c.exchange, state := c.state)
    && match c.state
       case ClientCreated => n == 0 && c == c0
       case WaitingForGexReply(names) =>
         && Opening(c0, ms, seqn, c.exchange, names) && n == 1 && c0.crypto.isGex(names.kex)
         && Between(c0, names, c.exchange.serverKexInit) == 1
       case WaitingForDhReply(names) =>
         && Opening(c0, ms, seqn, c.exchange, names) && Grouped(c0, ms, c.exchange, names)
         && n == 1 + Between(c0, names, c.exchange.serverKexInit)
       case ClientWaitingForNewKeys(hostKey, nk) => Authentic(c0, ms, n, seqn, hostKey, nk)
  }

  /** Where a step leads that read the `n`-th message. */
  ghost predicate LeadsOn(c0: Client, ms: seq<Msg>, n: nat, seqn: nat, p: Progress<Client>)
    requires n < |ms|
  {
    match p
    case NeedsReply(next, _, _) => OnTrack(c0, next, ms, n + 1, seqn)
    case Done(hostKey, nk) => ms[n] == NewKeysMsg && hostKey.Some? && Authentic(c0, ms, n, seqn, hostKey.value, nk)
  }

  lemma StaysOnTrack(c0: Client, c: Client, ms: seq<Msg>, n: nat, seqn: nat)
    requires n < |ms| && OnTrack(c0, c, ms, n, seqn) && ClientStep(c, ms[n], seqn + n + 1).Ok?
    ensures LeadsOn(c0, ms, n, seqn, ClientStep(c, ms[n], seqn + n + 1).value)
  {
    match c.state
    case ClientCreated => ClientOpens(c0, ms, seqn);
    case WaitingForDhReply(names) => ReplyOnTrack(c0, c, ms, n, seqn);
    case _ =>
  }

  lemma ClientOpens(c0: Client, ms: seq<Msg>, seqn: nat)
    requires ms != [] && c0.state.ClientCreated? && ClientStep(c0, ms[0], seqn + 1).Ok?
    ensures LeadsOn(c0, ms, 0, seqn, ClientStep(c0, ms[0], seqn + 1).value)
  {
  }

  lemma ReplyOnTrack(c0: Client, c: Client, ms: seq<Msg>, n: nat, seqn: nat)
    requires n < |ms| && OnTrack(c0, c, ms, n, seqn) && c.state.WaitingForDhReply? && ClientStep(c, ms[n], seqn + n + 1).Ok?
    ensures LeadsOn(c0, ms, n, seqn, ClientStep(c, ms[n], seqn + n + 1).value)
  {
  }

  lemma {:induction false} RunStaysOnTrack(c0: Client, c: Client, ms: seq<Msg>, n: nat, seqn: nat)
    requires n <= |ms| && OnTrack(c0, c, ms, n, seqn)
    requires ClientRun(c, ms, n, seqn).Ok? && ClientRun(c, ms, n, seqn).value.Done?
    ensures LeadsOn(c0, ms, |ms| - 1, seqn, ClientRun(c, ms, n, seqn).value)
    decreases |ms| - n
  {
    StaysOnTrack(c0, c, ms, n, seqn);
    var p := ClientStep(c, ms[n], seqn + n + 1).value;
    if p.NeedsReply? {
      RunStaysOnTrack(c0, p.kex, ms, n + 1, seqn);
    }
  }

  /** Whatever a peer sends, a client only completes after exactly the messages of its exchange, with keys
      whose transcript was signed by the host key it reports; and if the exchange is initial and strict,
      nothing was read before it. */
  lemma CompletesOnlyAuthentic(c: Client, ms: seq<Msg>, seqn: nat)
    requires c.state.ClientCreated? && ClientRun(c, ms, 0, seqn).Ok? && ClientRun(c, ms, 0, seqn).value.Done?
    ensures
      var d := ClientRun(c, ms, 0, seqn).value;
      && ms != [] && ms[|ms| - 1] == NewKeysMsg && d.hostKey.Some?
      && Authentic(c, ms, |ms| - 1, seqn, d.hostKey.value, d.newkeys)
  {
    RunStaysOnTrack(c, c, ms, 0, seqn);
  }

  /** A server fed whatever messages a peer sends. */
  function ServerRun(s: Server, ms: seq<Msg>, i: nat, seqn: nat): Result<Progress<Server>, KexError>
    requires i <= |ms|
    decreases |ms| - i
  {
    if i == |ms| then Ok(NeedsReply(s, [], false))
    else
      match ServerStep(s, ms[i], seqn + i + 1)
      case Err(e) => Err(e)
      case Ok(NeedsReply(next, _, _)) => ServerRun(next, ms, i + 1, seqn)
      case Ok(Done(hostKey, newkeys)) => if i + 1 == |ms| then Ok(Done(hostKey, newkeys)) else Err(UnexpectedMessage)
  }

  /** A server that started as `s0`: its names come from the first message read, the client's KEXINIT, and
      a strict initial exchange had nothing before it. */
  ghost predicate Asked(s0: Server, ms: seq<Msg>, seqn: nat, x: Exchange, names: AlgNames) {
    && ms != [] && ms[0] == KexInitMsg(x.clientKexInit)
    && SameExceptGuess(s0.negotiate(x.clientKexInit, StrictRekey(s0.cause)), names) && s0.crypto.known(names.kex)
    && (names.strict && s0.cause.Initial? ==> seqn == 0)
    && x.serverKexInit == s0.exchange.serverKexInit
    && x.clientId == s0.exchange.clientId && x.serverId == s0.exchange.serverId
  }

  /** The group of the exchange is the one configured for what the client asked. */
  ghost predicate Granted(s0: Server, ms: seq<Msg>, x: Exchange, names: AlgNames) {
    if s0.crypto.isGex(names.kex) then
      && |ms| > 1 && ms[1].GexRequest? && s0.lookup(ms[1].params).Some?
      && x.gex == Some(Gex(ms[1].params, s0.lookup(ms[1].params).value))
    else x.gex == s0.exchange.gex
  }

  function AskedBetween(s0: Server, names: AlgNames, clientKexInit: Bytes): nat {
    var negotiated := s0.negotiate(clientKexInit, StrictRekey(s0.cause));
    (if s0.crypto.isGex(names.kex) then 1 else 0)
    + (if negotiated.Some? && negotiated.value.ignoreGuessed && !names.ignoreGuessed then 1 else 0)
  }

  /** The keys a server holds after `n` messages: the secret it shares with the sender of the last one, and a
      hash over the whole transcript and its own host key for the negotiated algorithm. */
  ghost predicate Answered(s0: Server, ms: seq<Msg>, n: nat, seqn: nat, nk: NewKeys) {
    && Asked(s0, ms, seqn, nk.exchange, nk.names) && Granted(s0, ms, nk.exchange, nk.names)
    && n == 2 + AskedBetween(s0, nk.names, nk.exchange.clientKexInit) <= |ms| && !nk.names.ignoreGuessed
    && ms[n - 1].DhInit? && nk.exchange.clientEphemeral == ms[n - 1].ephemeral
    && s0.crypto.respond(nk.names.kex, GroupOf(nk.exchange), s0.secret, ms[n - 1].ephemeral)
       == Response(nk.exchange.serverEphemeral, nk.shared)
    && s0.hostKey(nk.names.key).Some?
    && nk.hash == s0.crypto.hash(nk.names.kex, s0.crypto.publicKey(s0.hostKey(nk.names.key).value), nk.exchange, nk.shared)
    && nk.sessionId == SessionId(s0.cause, nk.hash)
  }

  ghost predicate ServerOnTrack(s0: Server, s: Server, ms: seq<Msg>, n: nat, seqn: nat) {
    && s == s0.(exchange := s.exchange, state := s.state)
    && match s.state
       case ServerCreated => n == 0 && s == s0
       case WaitingForGexRequest(names) =>
         && Asked(s0, ms, seqn, s.exchange, names) && n == 1 && s0.crypto.isGex(names.kex)
         && AskedBetween(s0, names, s.exchange.clientKexInit) == 1
       case WaitingForDhInit(names) =>
         && Asked(s0, ms, seqn, s.exchange, names) && Granted(s0, ms, s.exchange, names)
         && n == 1 + AskedBetween(s0, names, s.exchange.clientKexInit)
       case ServerWaitingForNewKeys(nk) => Answered(s0, ms, n, seqn, nk)
  }

  ghost predicate ServerLeadsOn(s0: Server, ms: seq<Msg>, n: nat, seqn: nat, p: Progress<Server>)
    requires n < |ms|
  {
    match p
    case NeedsReply(next, _, _) => ServerOnTrack(s0, next, ms, n + 1, seqn)
    case Done(hostKey, nk) => ms[n] == NewKeysMsg && hostKey.None? && Answered(s0, ms, n, seqn, nk)
  }

  lemma ServerStaysOnTrack(s0: Server, s: Server, ms: seq<Msg>, n: nat, seqn: nat)
    requires n < |ms| && ServerOnTrack(s0, s, ms, n, seqn) && ServerStep(s, ms[n], seqn + n + 1).Ok?
    ensures ServerLeadsOn(s0, ms, n, seqn, ServerStep(s, ms[n], seqn + n + 1).value)
  {
    match s.state
    case ServerCreated => ServerOpens(s0, ms, seqn);
    case WaitingForDhInit(names) => AnswerOnTrack(s0, s, ms, n, seqn);
    case _ =>
  }

  lemma ServerOpens(s0: Server, ms: seq<Msg>, seqn: nat)
    requires ms != [] && s0.state.ServerCreated? && ServerStep(s0, ms[0], seqn + 1).Ok?
    ensures ServerLeadsOn(s0, ms, 0, seqn, ServerStep(s0, ms[0], seqn + 1).value)
  {
  }

  lemma AnswerOnTrack(s0: Server, s: Server, ms: seq<Msg>, n: nat, seqn: nat)
    requires n < |ms| && ServerOnTrack(s0, s, ms, n, seqn) && s.state.WaitingForDhInit?
    requires ServerStep(s, ms[n], seqn + n + 1).Ok?
    ensures ServerLeadsOn(s0, ms, n, seqn, ServerStep(s, ms[n], seqn + n + 1).value)
  {
  }

  lemma {:induction false} ServerRunOnTrack(s0: Server, s: Server, ms: seq<Msg>, n: nat, seqn: nat)
    requires n <= |ms| && ServerOnTrack(s0, s, ms, n, seqn)
    requires ServerRun(s, ms, n, seqn).Ok? && ServerRun(s, ms, n, seqn).value.Done?
    ensures ServerLeadsOn(s0, ms, |ms| - 1, seqn, ServerRun(s, ms, n, seqn).value)
    decreases |ms| - n
  {
    ServerStaysOnTrack(s0, s, ms, n, seqn);
    var p := ServerStep(s, ms[n], seqn + n + 1).value;
    if p.NeedsReply? {
      ServerRunOnTrack(s0, p.kex, ms, n + 1, seqn);
    }
  }

  /** Whatever a peer sends, a server only completes after exactly the messages of its exchange, NEWKEYS last,
      with keys over the whole transcript; and if the exchange is initial and strict, nothing was read before. */
  lemma ServerCompletesInOrder(s: Server, ms: seq<Msg>, seqn: nat)
    requires s.state.ServerCreated? && ServerRun(s, ms, 0, seqn).Ok? && ServerRun(s, ms, 0, seqn).value.Done?
    ensures
      && ms != [] && ms[|ms| - 1] == NewKeysMsg
      && Answered(s, ms, |ms| - 1, seqn, ServerRun(s, ms, 0, seqn).value.newkeys)
  {
    ServerRunOnTrack(s, s, ms, 0, seqn);
  }

  // ----------------------------------------------------- the machines as they run

  /** A side that reports its outcome: the state it is in, the packets it wrote, and whether it is done. */
  datatype Outcome = Waiting(resetSeqn: bool) | Complete(hostKey: Option<Bytes>, newkeys: NewKeys)

  class ClientKex {
    const negotiate: (Bytes, bool) -> Option<AlgNames>
    const crypto: Crypto
    const cause: Cause
    const gexParams: GexParams
    const secret: Bytes
    var exchange: Exchange
    var state: ClientState
    var output: seq<Msg>

    constructor (c: Client)
      ensures Value() == c && output == []
    {
      negotiate, crypto, cause, gexParams, secret := c.negotiate, c.crypto, c.cause, c.gexParams, c.secret;
      exchange, state, output := c.exchange, c.state, [];
    }

    function Value(): Client
      reads this
    {
      Client(negotiate, crypto, cause, gexParams, secret, exchange, state)
    }

    /** The result and the new state agree with the specification. */
    twostate predicate Follows(new r: Result<Outcome, KexError>, spec: Result<Progress<Client>, KexError>)
      reads this
    {
      match spec
      case Err(e) => r == Err(e)
      case Ok(NeedsReply(kex, out, reset)) => r == Ok(Waiting(reset)) && Value() == kex && output == old(output) + out
      case Ok(Done(hostKey, newkeys)) => r == Ok(Complete(hostKey, newkeys)) && output == old(output)
    }

    /** Write our key agreement message and wait for the answer. */
    method SendDh(names: AlgNames, group: Option<Group>) returns (r: Result<Outcome, KexError>)
      modifies this
      ensures Follows(r, Ok(ClientDh(old(Value()), names, group)))
    {
      var e := crypto.initiate(names.kex, group, secret);
      exchange := exchange.(clientEphemeral := e);
      output := output + [DhInit(crypto.isGex(names.kex), e)];
      state := WaitingForDhReply(names);
      return Ok(Waiting(false));
    }

    /** `ClientKex::step`. */
    method Step(m: Msg, seqn: nat) returns (r: Result<Outcome, KexError>)
      modifies this
      ensures Follows(r, ClientStep(old(Value()), m, seqn))
    {
      assert output + [] == output;
      match state {
        case ClientCreated =>
          if !m.KexInitMsg? {
            return Err(UnexpectedMessage);
          }
          exchange := exchange.(serverKexInit := m.bytes);
          var negotiated := negotiate(m.bytes, StrictRekey(cause));
          if negotiated.None? {
            return Err(NegotiationFailed);
          }
          var names := negotiated.value;
          if names.strict && !cause.Rekey? && seqn != 1 {
            return Err(StrictViolation);
          }
          if !crypto.known(names.kex) {
            return Err(UnknownAlgo);
          }
          if crypto.isGex(names.kex) {
            output := output + [GexRequest(gexParams)];
            state := WaitingForGexReply(names);
            return Ok(Waiting(false));
          }
          r := SendDh(names, None);
        case WaitingForGexReply(names) =>
          if !m.GexGroup? {
            return Err(UnexpectedMessage);
          }
          if crypto.bits(m.group) < gexParams.min || crypto.bits(m.group) > gexParams.max {
            return Err(BadGroup);
          }
          exchange := exchange.(gex := Some(Gex(gexParams, m.group)));
          r := SendDh(names, Some(m.group));
        case WaitingForDhReply(names) =>
          if names.ignoreGuessed {
            state := WaitingForDhReply(names.(ignoreGuessed := false));
            return Ok(Waiting(false));
          }
          if !m.DhReply? || m.gex != crypto.isGex(names.kex) {
            return Err(UnexpectedMessage);
          }
          exchange := exchange.(serverEphemeral := m.ephemeral);
          var group := if exchange.gex.Some? then Some(exchange.gex.value.group) else None;
          var shared := crypto.finish(names.kex, group, secret, m.ephemeral);
          var hash := crypto.hash(names.kex, m.hostKey, exchange, shared);
          if !crypto.verify(m.hostKey, hash, m.signature) {
            return Err(WrongServerSig);
          }
          var newkeys := NewKeys(names, exchange, hash, shared, SessionId(cause, hash));
          output := output + [NewKeysMsg];
          state := ClientWaitingForNewKeys(m.hostKey, newkeys);
          return Ok(Waiting(names.strict || StrictRekey(cause)));
        case ClientWaitingForNewKeys(hostKey, newkeys) =>
          if m != NewKeysMsg {
            return Err(UnexpectedMessage);
          }
          return Ok(Complete(Some(hostKey), newkeys));
      }
    }
  }

  class ServerKex {
    const negotiate: (Bytes, bool) -> Option<AlgNames>
    const crypto: Crypto
    const cause: Cause
    const secret: Bytes
    const hostKey: Name -> Option<Bytes>
    const lookup: GexParams -> Option<Group>
    var exchange: Exchange
    var state: ServerState
    var output: seq<Msg>

    constructor (s: Server)
      ensures Value() == s && output == []
    {
      negotiate, crypto, cause, secret, hostKey, lookup := s.negotiate, s.crypto, s.cause, s.secret, s.hostKey, s.lookup;
      exchange, state, output := s.exchange, s.state, [];
    }

    function Value(): Server
      reads this
    {
      Server(negotiate, crypto, cause, secret, hostKey, lookup, exchange, state)
    }

    twostate predicate Follows(new r: Result<Outcome, KexError>, spec: Result<Progress<Server>, KexError>)
      reads this
    {
      match spec
      case Err(e) => r == Err(e)
      case Ok(NeedsReply(kex, out, reset)) => r == Ok(Waiting(reset)) && Value() == kex && output == old(output) + out
      case Ok(Done(hostKey, newkeys)) => r == Ok(Complete(hostKey, newkeys)) && output == old(output)
    }

    /** `ServerKex::step`. */
    method Step(m: Msg, seqn: nat) returns (r: Result<Outcome, KexError>)
      modifies this
      ensures Follows(r, ServerStep(old(Value()), m, seqn))
    {
      assert output + [] == output;
      match state {
        case ServerCreated =>
          if !m.KexInitMsg? {
            return Err(UnexpectedMessage);
          }
          exchange := exchange.(clientKexInit := m.bytes);
          var negotiated := negotiate(m.bytes, StrictRekey(cause));
          if negotiated.None? {
            return Err(NegotiationFailed);
          }
          var names := negotiated.value;
          if names.strict && !cause.Rekey? && seqn != 1 {
            return Err(StrictViolation);
          }
          if !crypto.known(names.kex) {
            return Err(UnknownAlgo);
          }
          state := if crypto.isGex(names.kex) then WaitingForGexRequest(names) else WaitingForDhInit(names);
          return Ok(Waiting(false));
        case WaitingForGexRequest(names) =>
          if !m.GexRequest? {
            return Err(UnexpectedMessage);
          }
          var group := lookup(m.params);
          if group.None? {
            return Err(NoGroup);
          }
          exchange := exchange.(gex := Some(Gex(m.params, group.value)));
          output := output + [GexGroup(group.value)];
          state := WaitingForDhInit(names);
          return Ok(Waiting(false));
        case WaitingForDhInit(names) =>
          if names.ignoreGuessed {
            state := WaitingForDhInit(names.(ignoreGuessed := false));
            return Ok(Waiting(false));
          }
          if !m.DhInit? || m.gex != crypto.isGex(names.kex) {
            return Err(UnexpectedMessage);
          }
          r := Reply(names, m.ephemeral);
        case ServerWaitingForNewKeys(newkeys) =>
          if m != NewKeysMsg {
            return Err(UnexpectedMessage);
          }
          return Ok(Complete(None, newkeys));
      }
    }

    /** Answer the client's key agreement message, sign the exchange, and switch to waiting for NEWKEYS. */
    method Reply(names: AlgNames, ephemeral: Bytes) returns (r: Result<Outcome, KexError>)
      requires state == WaitingForDhInit(names) && !names.ignoreGuessed
      modifies this
      ensures Follows(r, ServerStep(old(Value()), DhInit(crypto.isGex(names.kex), ephemeral), 0))
    {
      exchange := exchange.(clientEphemeral := ephemeral);
      var group := if exchange.gex.Some? then Some(exchange.gex.value.group) else None;
      var answer := crypto.respond(names.kex, group, secret, ephemeral);
      exchange := exchange.(serverEphemeral := answer.message);
      var key := hostKey(names.key);
      if key.None? {
        return Err(NoHostKey);
      }
      var public := crypto.publicKey(key.value);
      var hash := crypto.hash(names.kex, public, exchange, answer.shared);
      output := output + [DhReply(crypto.isGex(names.kex), public, answer.message, crypto.sign(key.value, hash))];
      output := output + [NewKeysMsg];
      state := ServerWaitingForNewKeys(NewKeys(names, exchange, hash, answer.shared, SessionId(cause, hash)));
      return Ok(Waiting(names.strict || StrictRekey(cause)));
    }
  }
}
