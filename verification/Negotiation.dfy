/**
 Algorithm negotiation (section 7.1 of RFC 4253; russh/src/negotiation.rs): both
 sides read the other's KEXINIT and must come to the same names, although each
 filters extension names and host key algorithms by its own role.
 */
module Negotiation {
  import opened Common
  import opened Wire
  import opened NameLists

  const EXT_INFO_C: Name := Ascii("ext-info-c")
  const EXT_INFO_S: Name := Ascii("ext-info-s")
  const STRICT_C: Name := Ascii("kex-strict-c-v00@openssh.com")
  const STRICT_S: Name := Ascii("kex-strict-s-v00@openssh.com")
  const EXTENSIONS: seq<Name> := [EXT_INFO_C, EXT_INFO_S, STRICT_C, STRICT_S]
  const NO_MAC: Name := Ascii("none")
  const KEXINIT: Byte := 20

  function Ascii(s: string): Name {
    seq(|s|, i requires 0 <= i < |s| => if s[i] < 128 as char then s[i] as int else 0)
  }

  // ---------------------------------------------------------------- selection

  /** The index of the first entry of `client` that `server` also has, or its length. */
  function FirstCommon(client: seq<Name>, server: seq<Name>): (k: nat)
    ensures k <= |client| && (k < |client| ==> client[k] in server)
    ensures forall j :: 0 <= j < k ==> client[j] !in server
  {
    if client == [] || client[0] in server then 0 else 1 + FirstCommon(client[1..], server)
  }

  /** The outcome of a selection: the algorithm, and whether it was both sides' first choice. */
  datatype Choice = Choice(bothFirst: bool, name: Name)

  function Selection(client: seq<Name>, server: seq<Name>): Option<Choice> {
    var k := FirstCommon(client, server);
    if k == |client| then None
    else Some(Choice(client[0] == server[0], client[k]))
  }

  /** The nested loops of `select`, the same on both sides once the lists are named by role. */
  method Select(client: seq<Name>, server: seq<Name>) returns (r: Option<Choice>)
    ensures r == Selection(client, server)
  {
    var bothFirst := true;
    var i := 0;
    while i < |client|
      invariant i <= |client|
      invariant forall j :: 0 <= j < i ==> client[j] !in server
      invariant bothFirst <==> i == 0 || server == []
    {
      var j := 0;
      while j < |server|
        invariant j <= |server|
        invariant client[i] !in server[..j]
        invariant bothFirst <==> (i == 0 && j == 0) || server == []
      {
        if client[i] == server[j] {
          UniqueFirst(client, server, i);
          assert i == 0 && j > 0 ==> client[0] != server[0] by {
            if i == 0 && j > 0 {
              assert server[0] in server[..j];
            }
          }
          assert i > 0 ==> client[0] !in server;
          return Some(Choice(bothFirst, client[i]));
        }
        bothFirst := false;
        j := j + 1;
      }
      assert server[..j] == server;
      i := i + 1;
    }
    UniqueNone(client, server);
    return None;
  }

  lemma UniqueFirst(client: seq<Name>, server: seq<Name>, i: nat)
    requires i < |client| && client[i] in server && forall j :: 0 <= j < i ==> client[j] !in server
    ensures FirstCommon(client, server) == i
  {
  }

  lemma UniqueNone(client: seq<Name>, server: seq<Name>)
    requires forall j :: 0 <= j < |client| ==> client[j] !in server
    ensures FirstCommon(client, server) == |client|
  {
  }

  // --------------------------------------------------------------- preferences

  datatype Preferred = Preferred(kex: seq<Name>, key: seq<Name>, cipher: seq<Name>, mac: seq<Name>, compression: seq<Name>)

  /** What an endpoint brings to a negotiation. A server has host keys for some algorithms; `needsMac` and
      `known` are the cipher and key exchange tables. */
  datatype Party = Party(server: bool, pref: Preferred, hasKey: Name -> bool, needsMac: Name -> bool, known: Name -> bool)

  function Filter(names: seq<Name>, keep: Name -> bool): (r: seq<Name>)
    ensures forall n :: n in r <==> n in names && keep(n)
  {
    if names == [] then []
    else (if keep(names[0]) then [names[0]] else []) + Filter(names[1..], keep)
  }

  predicate IsExtension(n: Name) {
    n in EXTENSIONS
  }

  /** The extension names an endpoint must not advertise: those of the other role. */
  predicate Foreign(server: bool, n: Name) {
    if server then n == EXT_INFO_C || n == STRICT_C else n == EXT_INFO_S || n == STRICT_S
  }

  function In(names: seq<Name>): Name -> bool {
    n => n in names
  }

  /** Real key exchange methods, not extension markers. */
  function Plain(): Name -> bool {
    n => !IsExtension(n)
  }

  function Own(server: bool): Name -> bool {
    n => !Foreign(server, n)
  }

  /** What `read_kex` keeps of a remote list: everything but extension names the key exchange table knows. */
  function Kept(known: Name -> bool): Name -> bool {
    n => !(known(n) && IsExtension(n))
  }

  /** The lists of a KEXINIT message. */
  datatype Offer = Offer(
    kex: seq<Name>, key: seq<Name>, cipher: seq<Name>,
    clientMac: seq<Name>, serverMac: seq<Name>,
    clientCompression: seq<Name>, serverCompression: seq<Name>,
    follows: bool)

  /** `possible_host_key_algos_for_keys`. */
  function HostKeys(p: Party): seq<Name> {
    if p.server then Filter(p.pref.key, p.hasKey) else p.pref.key
  }

  /** The lists `write_kex` advertises. */
  function Advertised(p: Party): Offer {
    Offer(Filter(p.pref.kex, Own(p.server)), HostKeys(p), p.pref.cipher,
          p.pref.mac, p.pref.mac, p.pref.compression, p.pref.compression, false)
  }

  /** An endpoint advertises its preferences without the markers of the other role. */
  lemma AdvertisesOwn(p: Party, n: Name)
    ensures
      var foreign := if p.server then [Ascii("ext-info-c"), Ascii("kex-strict-c-v00@openssh.com")]
                     else [Ascii("ext-info-s"), Ascii("kex-strict-s-v00@openssh.com")];
      n in Advertised(p).kex <==> n in p.pref.kex && n !in foreign
  {
  }

  // ------------------------------------------------------------------ read_kex

  datatype AlgNames = AlgNames(
    kex: Name, key: Name, cipher: Name, clientMac: Name, serverMac: Name,
    clientCompression: Name, serverCompression: Name, ignoreGuessed: bool, strict: bool)

  function Pick(server: bool, ours: seq<Name>, theirs: seq<Name>): Option<Choice> {
    if server then Selection(theirs, ours) else Selection(ours, theirs)
  }

  /** A MAC is negotiated, or goes without when the cipher needs none. */
  function PickMac(p: Party, cipher: Name, theirs: seq<Name>): Option<Name> {
    match Pick(p.server, p.pref.mac, theirs)
    case Some(c) => Some(c.name)
    case None => if p.needsMac(cipher) then None else Some(NO_MAC)
  }

  /** The remote list as `read_kex` selects from it. */
  function RemoteKex(p: Party, theirs: seq<Name>): seq<Name> {
    Filter(theirs, Kept(p.known))
  }

  predicate Strict(p: Party, theirs: seq<Name>, strictRekey: bool) {
    || ((if p.server then STRICT_S else STRICT_C) in p.pref.kex && (if p.server then STRICT_C else STRICT_S) in theirs)
    || strictRekey
  }

  /** `read_kex` on the decoded lists. */
  function Resolve(p: Party, o: Offer, strictRekey: bool): Option<AlgNames> {
    match Pick(p.server, Filter(p.pref.kex, Plain()), RemoteKex(p, o.kex))
    case None => None
    case Some(kex) =>
      match Pick(p.server, HostKeys(p), o.key)
      case None => None
      case Some(key) =>
        match Pick(p.server, p.pref.cipher, o.cipher)
        case None => None
        case Some(cipher) =>
          match (PickMac(p, cipher.name, o.clientMac), PickMac(p, cipher.name, o.serverMac),
                 Pick(p.server, p.pref.compression, o.clientCompression), Pick(p.server, p.pref.compression, o.serverCompression))
          case (Some(clientMac), Some(serverMac), Some(cs), Some(sc)) =>
            Some(AlgNames(kex.name, key.name, cipher.name, clientMac, serverMac, cs.name, sc.name,
                          o.follows && !(kex.bothFirst && key.bothFirst), Strict(p, o.kex, strictRekey)))
          case _ => None
  }

  // ----------------------------------------------------------------- agreement

  lemma {:induction false} FilterSame(names: seq<Name>, p: Name -> bool, q: Name -> bool)
    requires forall n :: n in names ==> p(n) == q(n)
    ensures Filter(names, p) == Filter(names, q)
  {
    if names != [] {
      FilterSame(names[1..], p, q);
    }
  }

  lemma {:induction false} FilterTwice(names: seq<Name>, p: Name -> bool, q: Name -> bool, both: Name -> bool)
    requires forall n :: n in names ==> both(n) == (p(n) && q(n))
    ensures Filter(Filter(names, p), q) == Filter(names, both)
  {
    if names != [] {
      FilterTwice(names[1..], p, q, both);
      var one: seq<Name> := [names[0]];
      FilterConcat(if p(names[0]) then one else [], Filter(names[1..], p), q);
      assert one[1..] == [];
    }
  }

  lemma {:induction false} FilterConcat(a: seq<Name>, b: seq<Name>, q: Name -> bool)
    ensures Filter(a + b, q) == Filter(a, q) + Filter(b, q)
  {
    if a == [] {
      assert a + b == b;
    } else {
      FilterConcat(a[1..], b, q);
      assert (a + b)[1..] == a[1..] + b;
      Assoc(if q(a[0]) then [a[0]] else [], Filter(a[1..], q), Filter(b, q));
    }
  }

  /** The selected name is the first client entry the server supports. */
  lemma {:induction false} SelectionIsHead(client: seq<Name>, server: seq<Name>)
    ensures
      var common := Filter(client, In(server));
      && (Selection(client, server).None? <==> common == [])
      && (Selection(client, server).Some? ==> Selection(client, server).value.name == common[0])
  {
    if client != [] {
      if client[0] !in server {
        SelectionIsHead(client[1..], server);
      }
    }
  }

  /** Two views of the same two lists with the same common entries select the same name. */
  lemma SameChoice(client: seq<Name>, server: seq<Name>, client': seq<Name>, server': seq<Name>)
    requires Filter(client, In(server)) == Filter(client', In(server'))
    ensures Selection(client, server).Some? == Selection(client', server').Some?
    ensures Selection(client, server).Some? ==> Selection(client, server).value.name == Selection(client', server').value.name
  {
    SelectionIsHead(client, server);
    SelectionIsHead(client', server');
  }

  /** A key exchange method both sides could use. */
  function Usable(s: Party): Name -> bool {
    n => !IsExtension(n) && n in s.pref.kex
  }

  lemma ClientKexView(c: Party, s: Party)
    requires !c.server && s.server
    ensures Filter(Filter(c.pref.kex, Plain()), In(RemoteKex(c, Advertised(s).kex))) == Filter(c.pref.kex, Usable(s))
  {
    FilterTwice(c.pref.kex, Plain(), In(RemoteKex(c, Advertised(s).kex)), Usable(s));
  }

  lemma ServerKexView(c: Party, s: Party)
    requires !c.server && s.server
    ensures Filter(RemoteKex(s, Advertised(c).kex), In(Filter(s.pref.kex, Plain()))) == Filter(c.pref.kex, Usable(s))
  {
    FilterTwice(Advertised(c).kex, Kept(s.known), In(Filter(s.pref.kex, Plain())), Usable(s));
    FilterTwice(c.pref.kex, Own(false), Usable(s), Usable(s));
  }

  /** Filtering extensions by role on either side leaves the same choice of key exchange method. */
  lemma KexChoice(c: Party, s: Party)
    requires !c.server && s.server
    ensures
      var mine := Selection(Filter(c.pref.kex, Plain()), RemoteKex(c, Advertised(s).kex));
      var theirs := Selection(RemoteKex(s, Advertised(c).kex), Filter(s.pref.kex, Plain()));
      mine.Some? == theirs.Some? && (mine.Some? ==> mine.value.name == theirs.value.name)
  {
    ClientKexView(c, s);
    ServerKexView(c, s);
    SameChoice(Filter(c.pref.kex, Plain()), RemoteKex(c, Advertised(s).kex),
               RemoteKex(s, Advertised(c).kex), Filter(s.pref.kex, Plain()));
  }

  /** Strict key exchange is on for good, or turned on by both sides' preferences. */
  predicate WantStrict(c: Party, s: Party, strictRekey: bool) {
    strictRekey || (STRICT_C in c.pref.kex && STRICT_S in s.pref.kex)
  }

  lemma StrictAgrees(c: Party, s: Party, strictRekey: bool)
    requires !c.server && s.server
    ensures Strict(c, Advertised(s).kex, strictRekey) <==> WantStrict(c, s, strictRekey)
    ensures Strict(s, Advertised(c).kex, strictRekey) <==> WantStrict(c, s, strictRekey)
  {
    ExtensionsDiffer();
  }

  lemma ExtensionsDiffer()
    ensures STRICT_S != EXT_INFO_C && STRICT_S != STRICT_C && STRICT_C != EXT_INFO_S
  {
    assert |STRICT_S| == 28 && |STRICT_C| == 28 && |EXT_INFO_C| == 10 && |EXT_INFO_S| == 10;
    assert STRICT_S[11] == 's' as int && STRICT_C[11] == 'c' as int;
  }

  /** Two endpoints reading each other's lists come to the same names, or both fail. */
  lemma OffersAgree(c: Party, s: Party, strictRekey: bool)
    requires !c.server && s.server && forall n :: c.needsMac(n) == s.needsMac(n)
    ensures Resolve(c, Advertised(s), strictRekey) == Resolve(s, Advertised(c), strictRekey)
  {
    KexChoice(c, s);
    StrictAgrees(c, s, strictRekey);
    SameResolution(c, s, Advertised(s), Advertised(c), strictRekey);
  }

  /** Two views whose selections agree one by one resolve to the same names. */
  lemma SameResolution(c: Party, s: Party, seen: Offer, sent: Offer, strictRekey: bool)
    requires forall n :: c.needsMac(n) == s.needsMac(n)
    requires
      var mine := Pick(c.server, Filter(c.pref.kex, Plain()), RemoteKex(c, seen.kex));
      var theirs := Pick(s.server, Filter(s.pref.kex, Plain()), RemoteKex(s, sent.kex));
      mine.Some? == theirs.Some? && (mine.Some? ==> mine.value.name == theirs.value.name)
    requires Pick(c.server, HostKeys(c), seen.key) == Pick(s.server, HostKeys(s), sent.key)
    requires Pick(c.server, c.pref.cipher, seen.cipher) == Pick(s.server, s.pref.cipher, sent.cipher)
    requires Pick(c.server, c.pref.mac, seen.clientMac) == Pick(s.server, s.pref.mac, sent.clientMac)
    requires Pick(c.server, c.pref.mac, seen.serverMac) == Pick(s.server, s.pref.mac, sent.serverMac)
    requires Pick(c.server, c.pref.compression, seen.clientCompression) == Pick(s.server, s.pref.compression, sent.clientCompression)
    requires Pick(c.server, c.pref.compression, seen.serverCompression) == Pick(s.server, s.pref.compression, sent.serverCompression)
    requires !seen.follows && !sent.follows && Strict(c, seen.kex, strictRekey) == Strict(s, sent.kex, strictRekey)
    ensures Resolve(c, seen, strictRekey) == Resolve(s, sent, strictRekey)
  {
  }

  /** The first entry of a list that satisfies `keep`. */
  predicate FirstKept(name: Name, names: seq<Name>, keep: Name -> bool) {
    Filter(names, keep) != [] && Filter(names, keep)[0] == name
  }

  /** The first common MAC; without one, and with a cipher that needs none, no MAC at all. */
  predicate FirstMac(name: Name, c: Party, s: Party, cipher: Name) {
    if Filter(c.pref.mac, In(s.pref.mac)) != [] then FirstKept(name, c.pref.mac, In(s.pref.mac))
    else !c.needsMac(cipher) && name == NO_MAC
  }

  /** A host key algorithm the server prefers and has a key for. */
  function Provable(s: Party): Name -> bool {
    n => n in s.pref.key && s.hasKey(n)
  }

  /** Each choice is the first entry of the client's list that the server supports, no guess is ignored, and
      the exchange is strict when both sides want it. */
  ghost predicate FirstChoices(c: Party, s: Party, strictRekey: bool, names: AlgNames) {
    && FirstKept(names.kex, c.pref.kex, Usable(s))
    && FirstKept(names.key, c.pref.key, Provable(s))
    && FirstKept(names.cipher, c.pref.cipher, In(s.pref.cipher))
    && FirstMac(names.clientMac, c, s, names.cipher)
    && FirstMac(names.serverMac, c, s, names.cipher)
    && FirstKept(names.clientCompression, c.pref.compression, In(s.pref.compression))
    && FirstKept(names.serverCompression, c.pref.compression, In(s.pref.compression))
    && !names.ignoreGuessed
    && (names.strict <==> WantStrict(c, s, strictRekey))
  }

  lemma ResolvedAreFirst(c: Party, s: Party, strictRekey: bool)
    requires !c.server && s.server && Resolve(c, Advertised(s), strictRekey).Some?
    ensures FirstChoices(c, s, strictRekey, Resolve(c, Advertised(s), strictRekey).value)
  {
    StrictAgrees(c, s, strictRekey);
    FilterSame(c.pref.key, In(HostKeys(s)), Provable(s));
    ClientKexView(c, s);
    SelectionIsHead(Filter(c.pref.kex, Plain()), RemoteKex(c, Advertised(s).kex));
    SelectionIsHead(c.pref.key, HostKeys(s));
    SelectionIsHead(c.pref.cipher, s.pref.cipher);
    SelectionIsHead(c.pref.mac, s.pref.mac);
    SelectionIsHead(c.pref.compression, s.pref.compression);
  }

  lemma FirstAreResolved(c: Party, s: Party, strictRekey: bool, names: AlgNames)
    requires !c.server && s.server && FirstChoices(c, s, strictRekey, names)
    ensures Resolve(c, Advertised(s), strictRekey).Some?
  {
    FilterSame(c.pref.key, In(HostKeys(s)), Provable(s));
    ClientKexView(c, s);
    SelectionIsHead(Filter(c.pref.kex, Plain()), RemoteKex(c, Advertised(s).kex));
    SelectionIsHead(c.pref.key, HostKeys(s));
    SelectionIsHead(c.pref.cipher, s.pref.cipher);
    SelectionIsHead(c.pref.mac, s.pref.mac);
    SelectionIsHead(c.pref.compression, s.pref.compression);
  }

  /** Both sides resolve to the same names, and do so exactly when every list has something in common, a MAC
      aside where the cipher needs none; the names are the client's first common entries. */
  lemma ChoicesAreFirst(c: Party, s: Party, strictRekey: bool)
    requires !c.server && s.server && forall n :: c.needsMac(n) == s.needsMac(n)
    ensures Resolve(s, Advertised(c), strictRekey) == Resolve(c, Advertised(s), strictRekey)
    ensures Resolve(c, Advertised(s), strictRekey).Some? <==> exists names :: FirstChoices(c, s, strictRekey, names)
    ensures Resolve(c, Advertised(s), strictRekey).Some? ==>
      FirstChoices(c, s, strictRekey, Resolve(c, Advertised(s), strictRekey).value)
  {
    OffersAgree(c, s, strictRekey);
    if Resolve(c, Advertised(s), strictRekey).Some? {
      ResolvedAreFirst(c, s, strictRekey);
    }
    forall names | FirstChoices(c, s, strictRekey, names)
      ensures Resolve(c, Advertised(s), strictRekey).Some?
    {
      FirstAreResolved(c, s, strictRekey, names);
    }
  }

  /** A packet the peer sent on a guess is dropped exactly when the guess was wrong: the two sides' first
      choices of key exchange or of host key algorithm differ. */
  lemma GuessIgnoredIff(p: Party, o: Offer, strictRekey: bool)
    requires Resolve(p, o, strictRekey).Some?
    ensures
      var kex, theirs := Filter(p.pref.kex, Plain()), RemoteKex(p, o.kex);
      && kex != [] && theirs != [] && HostKeys(p) != [] && o.key != []
      && (Resolve(p, o, strictRekey).value.ignoreGuessed <==> o.follows && (kex[0] != theirs[0] || HostKeys(p)[0] != o.key[0]))
  {
  }

  /** The filter on the remote list removes nothing as long as no extension name is in the key exchange table. */
  lemma RemoteFilterIsIdentity(p: Party, theirs: seq<Name>)
    requires forall n :: n in EXTENSIONS ==> !p.known(n)
    ensures RemoteKex(p, theirs) == theirs
  {
    KeepsAll(theirs, Kept(p.known));
  }

  lemma {:induction false} KeepsAll(names: seq<Name>, keep: Name -> bool)
    requires forall n :: n in names ==> keep(n)
    ensures Filter(names, keep) == names
  {
    if names != [] {
      KeepsAll(names[1..], keep);
      assert names == [names[0]] + names[1..];
    }
  }

  // -------------------------------------------------------------- KEXINIT bytes

  /** The advertised lists are within the limits of the decoder. */
  predicate Sendable(p: Party) {
    var o := Advertised(p);
    Encodable(o.kex) && Encodable(o.key) && Encodable(o.cipher) && Encodable(o.clientMac) && Encodable(o.clientCompression)
  }

  /** The part of `write_kex` after the cipher lists. */
  function KexInitTail(p: Party): Bytes
    requires Sendable(p)
  {
    PutNames(p.pref.mac) + (PutNames(p.pref.mac) +
    (PutNames(p.pref.compression) + (PutNames(p.pref.compression) +
    (PutString([]) + (PutString([]) + ([0] + PutU32(0)))))))
  }

  /** `write_kex`. */
  function KexInit(p: Party, cookie: Bytes): Bytes
    requires Sendable(p) && |cookie| == 16
  {
    [KEXINIT] + cookie +
    (PutNames(Advertised(p).kex) + (PutNames(Advertised(p).key) +
    (PutNames(p.pref.cipher) + (PutNames(p.pref.cipher) + KexInitTail(p)))))
  }

  datatype Tail = Tail(clientMac: seq<Name>, serverMac: seq<Name>,
                       clientCompression: seq<Name>, serverCompression: seq<Name>, follows: bool)

  /** The languages, the guess flag and the reserved number. */
  function ParseEnd(b: Bytes): Option<bool> {
    match TakeString(b) case None => None case Some(Parsed(_, b)) =>
    match TakeString(b) case None => None case Some(Parsed(_, b)) =>
    if b == [] || Last(TakeU32(b[1..])).None? then None else Some(b[0] != 0)
  }

  function ParseTail(b: Bytes): Option<Tail> {
    match TakeNames(b) case None => None case Some(Parsed(cm, b)) =>
    match TakeNames(b) case None => None case Some(Parsed(sm, b)) =>
    match TakeNames(b) case None => None case Some(Parsed(cc, b)) =>
    match TakeNames(b) case None => None case Some(Parsed(sc, b)) =>
    match ParseEnd(b) case None => None case Some(follows) =>
    Some(Tail(cm, sm, cc, sc, follows))
  }

  /** The decoding half of `read_kex`; anything malformed is refused. */
  function ParseKexInit(b: Bytes): Option<Offer> {
    if |b| < 17 then None
    else
      match TakeNames(b[17..]) case None => None case Some(Parsed(kex, b)) =>
      match TakeNames(b) case None => None case Some(Parsed(key, b)) =>
      match TakeNames(b) case None => None case Some(Parsed(cipher, b)) =>
      match TakeString(b) case None => None case Some(Parsed(_, b)) =>
      match ParseTail(b) case None => None case Some(t) =>
      Some(Offer(kex, key, cipher, t.clientMac, t.serverMac, t.clientCompression, t.serverCompression, t.follows))
  }

  /** `read_kex`. */
  function ReadKex(p: Party, b: Bytes, strictRekey: bool): Option<AlgNames> {
    match ParseKexInit(b)
    case None => None
    case Some(o) => Resolve(p, o, strictRekey)
  }

  lemma EndRoundTrip()
    ensures ParseEnd(PutString([]) + (PutString([]) + ([0] + PutU32(0)))) == Some(false)
  {
    var z: Bytes := [0] + PutU32(0);
    StringRoundTrip([], PutString([]) + z);
    StringRoundTrip([], z);
    U32RoundTrip(0, []);
    assert z[0] == 0 && z[1..] == PutU32(0) + [];
  }

  lemma TailRoundTrip(p: Party)
    requires Sendable(p)
    ensures ParseTail(KexInitTail(p)) == Some(Tail(p.pref.mac, p.pref.mac, p.pref.compression, p.pref.compression, false))
  {
    var end := PutString([]) + (PutString([]) + ([0] + PutU32(0)));
    var c2 := PutNames(p.pref.compression) + end;
    var c1 := PutNames(p.pref.compression) + c2;
    NamesRoundTrip(p.pref.mac, PutNames(p.pref.mac) + c1);
    NamesRoundTrip(p.pref.mac, c1);
    NamesRoundTrip(p.pref.compression, c2);
    NamesRoundTrip(p.pref.compression, end);
    EndRoundTrip();
  }

  /** The message holds these strings, one after the other, and then the rest. */
  predicate Holds(b: Bytes, ss: seq<Bytes>, rest: Bytes)
    decreases |ss|
  {
    if ss == [] then b == rest
    else
      match TakeString(b)
      case None => false
      case Some(Parsed(first, more)) => first == ss[0] && Holds(more, ss[1..], rest)
  }

  lemma HoldsOne(first: Bytes, b: Bytes, ss: seq<Bytes>, rest: Bytes)
    requires |first| <= U32_MAX && Holds(b, ss, rest)
    ensures Holds(PutString(first) + b, [first] + ss, rest)
  {
    StringRoundTrip(first, b);
    assert ([first] + ss)[1..] == ss;
  }

  lemma HoldsTwice(s: Bytes, b: Bytes, ss: seq<Bytes>, rest: Bytes)
    requires |s| <= U32_MAX && Holds(b, ss, rest)
    ensures Holds(PutString(s) + (PutString(s) + b), [s, s] + ss, rest)
  {
    HoldsOne(s, b, ss, rest);
    HoldsOne(s, PutString(s) + b, [s] + ss, rest);
    assert [s] + ([s] + ss) == [s, s] + ss;
  }

  /** The ten lists of KEXINIT in the order of section 7.1 of RFC 4253: key exchange, host key, and for either
      direction cipher, MAC, compression and, left empty, language. */
  function Lists(p: Party): seq<Bytes> {
    var cipher, mac, compression := Join(p.pref.cipher), Join(p.pref.mac), Join(p.pref.compression);
    [Join(Advertised(p).kex)] + ([Join(HostKeys(p))] +
    ([cipher, cipher] + ([mac, mac] + ([compression, compression] + ([[], []] + [])))))
  }

  /** The bytes of KEXINIT: message number 20, the cookie, the ten lists, no guess, and a reserved zero. */
  lemma KexInitBytes(p: Party, cookie: Bytes)
    requires Sendable(p) && |cookie| == 16
    ensures
      var b := KexInit(p, cookie);
      |b| > 17 && b[0] == 20 && b[1..17] == cookie && Holds(b[17..], Lists(p), [0, 0, 0, 0, 0])
  {
    var b := KexInit(p, cookie);
    TailBytes(p);
    var tail := KexInitTail(p);
    var later: seq<Bytes> := [Join(p.pref.mac), Join(p.pref.mac)] + ([Join(p.pref.compression), Join(p.pref.compression)] + ([[], []] + []));
    HoldsTwice(Join(p.pref.cipher), tail, later, [0, 0, 0, 0, 0]);
    var c := PutNames(p.pref.cipher) + (PutNames(p.pref.cipher) + tail);
    var ss := [Join(p.pref.cipher), Join(p.pref.cipher)] + later;
    HoldsOne(Join(HostKeys(p)), c, ss, [0, 0, 0, 0, 0]);
    HoldsOne(Join(Advertised(p).kex), PutNames(HostKeys(p)) + c, [Join(HostKeys(p))] + ss, [0, 0, 0, 0, 0]);
    assert b[17..] == PutNames(Advertised(p).kex) + (PutNames(HostKeys(p)) + c);
  }

  lemma TailBytes(p: Party)
    requires Sendable(p)
    ensures Holds(KexInitTail(p),
                  [Join(p.pref.mac), Join(p.pref.mac)] + ([Join(p.pref.compression), Join(p.pref.compression)] + ([[], []] + [])),
                  [0, 0, 0, 0, 0])
  {
    var mac, compression := Join(p.pref.mac), Join(p.pref.compression);
    var end: Bytes := [0] + PutU32(0);
    assert end == [0, 0, 0, 0, 0];
    HoldsTwice([], end, [], end);
    var e := PutString([]) + (PutString([]) + end);
    HoldsTwice(compression, e, [[], []] + [], end);
    HoldsTwice(mac, PutString(compression) + (PutString(compression) + e), [compression, compression] + ([[], []] + []), end);
  }

  lemma KexInitRoundTrip(p: Party, cookie: Bytes)
    requires Sendable(p) && |cookie| == 16
    ensures ParseKexInit(KexInit(p, cookie)) == Some(Advertised(p))
  {
    var t := KexInitTail(p);
    var c2 := PutNames(p.pref.cipher) + t;
    var c1 := PutNames(p.pref.cipher) + c2;
    var k2 := PutNames(Advertised(p).key) + c1;
    var b := KexInit(p, cookie);
    assert b[17..] == PutNames(Advertised(p).kex) + k2;
    NamesRoundTrip(Advertised(p).kex, k2);
    NamesRoundTrip(Advertised(p).key, c1);
    NamesRoundTrip(p.pref.cipher, c2);
    StringRoundTrip(Join(p.pref.cipher), t);
    TailRoundTrip(p);
  }

  /** Negotiation agreement on the bytes: reading each other's KEXINIT, client and server either both fail
      or hold the same names, the client's first common entries and the strictness both want. */
  lemma NegotiationAgrees(c: Party, s: Party, cookieC: Bytes, cookieS: Bytes, strictRekey: bool)
    requires !c.server && s.server && Sendable(c) && Sendable(s) && |cookieC| == 16 && |cookieS| == 16
    requires forall n :: c.needsMac(n) == s.needsMac(n)
    ensures ReadKex(c, KexInit(s, cookieS), strictRekey) == ReadKex(s, KexInit(c, cookieC), strictRekey)
    ensures ReadKex(c, KexInit(s, cookieS), strictRekey).Some? <==> exists names :: FirstChoices(c, s, strictRekey, names)
    ensures ReadKex(c, KexInit(s, cookieS), strictRekey).Some? ==>
      FirstChoices(c, s, strictRekey, ReadKex(c, KexInit(s, cookieS), strictRekey).value)
  {
    KexInitRoundTrip(c, cookieC);
    KexInitRoundTrip(s, cookieS);
    ChoicesAreFirst(c, s, strictRekey);
  }
}
