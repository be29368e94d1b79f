/** The authenticated handshake: hello codecs, the key schedule, and what both ends end up with. */
module Handshakes {
  import opened Bytes
  import opened SecureRecords
  import opened SecureWire
  import HostBridge
  import Demux
  import Transport

  type Nonce = s: Data | |s| == 32 witness seq(32, i => 0)
  type Point = s: Data | |s| == 65 witness seq(65, i => 0)
  type Secret = s: Data | |s| == 32 witness seq(32, i => 0)
  type Material = s: Data | |s| == 88 witness seq(88, i => 0)

  const SERVER_MAGIC: Data := [67, 83, 85, 50]
  const FIXED := 4 + 32 + 65 + 2 + 2
  const MAX_CERTIFICATE := 16 * 1024
  const MAX_SIGNATURE := 1024

  datatype ClientHello = ClientHello(nonce: Nonce, publicKey: Point)
  datatype ServerHello = ServerHello(nonce: Nonce, publicKey: Point, certificate: Data, signature: Data)

  // ---- codecs ----------------------------------------------------------------------------

  function EncodeClientHello(h: ClientHello): Data {
    Demux.MAGIC + h.nonce + h.publicKey
  }

  function DecodeClientHello(wire: Data): Option<ClientHello> {
    if |wire| != Demux.HELLO_SIZE || wire[..4] != Demux.MAGIC then None
    else Some(ClientHello(wire[4..36], wire[36..101]))
  }

  function Length16(n: nat): (s: Data)
    ensures |s| == 2
  {
    [n / 256 % 256, n % 256]
  }

  function ReadLength16(s: Data): nat
    requires |s| == 2
  {
    s[0] as int * 256 + s[1] as int
  }

  predicate Encodable(h: ServerHello) {
    0 < |h.certificate| <= MAX_CERTIFICATE && 0 < |h.signature| <= MAX_SIGNATURE
  }

  function EncodeServerHello(h: ServerHello): Option<Data> {
    if !Encodable(h) then None
    else Some(SERVER_MAGIC + h.nonce + h.publicKey + Length16(|h.certificate|) + Length16(|h.signature|)
              + h.certificate + h.signature)
  }

  function DecodeServerHello(wire: Data): Option<ServerHello> {
    if |wire| < FIXED || wire[..4] != SERVER_MAGIC then None
    else
      var certificate, signature := ReadLength16(wire[101..103]), ReadLength16(wire[103..105]);
      if certificate == 0 || certificate > MAX_CERTIFICATE || signature == 0 || signature > MAX_SIGNATURE
         || |wire| != FIXED + certificate + signature
      then None
      else Some(ServerHello(wire[4..36], wire[36..101], wire[FIXED..FIXED + certificate], wire[FIXED + certificate..]))
  }

  lemma {:induction false} ClientHelloRoundTrip(h: ClientHello)
    ensures DecodeClientHello(EncodeClientHello(h)) == Some(h)
  {
    var wire := EncodeClientHello(h);
    assert wire[..4] == Demux.MAGIC && wire[4..36] == h.nonce && wire[36..101] == h.publicKey;
  }

  lemma {:induction false} ClientWireRoundTrip(wire: Data)
    requires DecodeClientHello(wire).Some?
    ensures EncodeClientHello(DecodeClientHello(wire).value) == wire
  {
    assert wire == wire[..4] + wire[4..36] + wire[36..101];
  }

  lemma {:induction false} Length16RoundTrip(n: nat)
    requires n < 0x1_0000
    ensures ReadLength16(Length16(n)) == n
  {
  }

  lemma {:induction false} ServerHelloRoundTrip(h: ServerHello)
    requires Encodable(h)
    ensures DecodeServerHello(EncodeServerHello(h).value) == Some(h)
  {
    var wire := EncodeServerHello(h).value;
    assert wire[..4] == SERVER_MAGIC && wire[4..36] == h.nonce && wire[36..101] == h.publicKey;
    assert wire[101..103] == Length16(|h.certificate|) && wire[103..105] == Length16(|h.signature|);
    assert wire[FIXED..FIXED + |h.certificate|] == h.certificate;
    assert wire[FIXED + |h.certificate|..] == h.signature;
    Length16RoundTrip(|h.certificate|);
    Length16RoundTrip(|h.signature|);
  }

  /** Nothing else decodes: an accepted byte string is the encoding of what it decodes to. */
  lemma {:induction false} ServerWireRoundTrip(wire: Data)
    requires DecodeServerHello(wire).Some?
    ensures Encodable(DecodeServerHello(wire).value)
    ensures EncodeServerHello(DecodeServerHello(wire).value) == Some(wire)
  {
    var h := DecodeServerHello(wire).value;
    assert Length16(|h.certificate|) == wire[101..103] && Length16(|h.signature|) == wire[103..105];
    assert wire == wire[..4] + wire[4..36] + wire[36..101] + wire[101..103] + wire[103..105]
                   + wire[FIXED..FIXED + |h.certificate|] + wire[FIXED + |h.certificate|..];
  }

  // ---- key schedule ----------------------------------------------------------------------

  datatype SessionKeys = SessionKeys(hostKey: Data, deviceKey: Data, hostIv: Iv, deviceIv: Iv)

  function SplitMaterial(material: Material): SessionKeys {
    SessionKeys(material[..32], material[32..64], material[64..76], material[88 - 12..])
  }

  /** The four parts are consecutive, disjoint and together all 88 bytes. */
  lemma {:induction false} MaterialPartitioned(material: Material)
    ensures var k := SplitMaterial(material);
            && |k.hostKey| == |k.deviceKey| == 32
            && k.hostKey + k.deviceKey + k.hostIv + k.deviceIv == material
  {
  }

  // ---- the two ends ----------------------------------------------------------------------

  /** The primitives, as functions: points of private keys, ECDH, signatures, certificates, HKDF. */
  datatype Suite = Suite(
    point: Data -> Point,
    agree: (Data, Point) -> Option<Secret>,
    sign: (Data, Data) -> Data,
    verify: (Data, Data, Data) -> bool,
    parses: Data -> bool,
    trusts: (Data, Data) -> bool,
    hkdf: (Secret, Data) -> Material)

  ghost predicate Commutative(s: Suite) {
    forall a, b :: && s.point(a)[0] == 4
                   && s.agree(a, s.point(b)).Some? && s.agree(a, s.point(b)) == s.agree(b, s.point(a))
  }

  datatype Identity = Identity(certificate: Data, key: Data)

  datatype HandshakeError = BadHello | BadCertificate | Untrusted | BadSignature | BadIdentity | BadPeer

  function Derive(s: Suite, secret: Secret, hostNonce: Nonce, deviceNonce: Nonce): SessionKeys {
    SplitMaterial(s.hkdf(secret, hostNonce + deviceNonce))
  }

  /** What the device signs: the client's hello as encoded, its own nonce and its own point. */
  function Transcript(client: ClientHello, nonce: Nonce, publicKey: Point): Data {
    EncodeClientHello(client) + nonce + publicKey
  }

  function Agree(s: Suite, own: Data, peer: Point): Option<Secret> {
    if peer[0] != 4 then None else s.agree(own, peer)
  }

  datatype Response = Response(wire: Data, keys: SessionKeys)

  function Respond(s: Suite, id: Identity, own: Data, nonce: Nonce, clientWire: Data):
      Result<Response, HandshakeError>
  {
    match DecodeClientHello(clientWire)
    case None => Err(BadHello)
    case Some(client) =>
      if |id.certificate| == 0 || |id.certificate| > MAX_CERTIFICATE then Err(BadIdentity)
      else
        var signature := s.sign(id.key, Transcript(client, nonce, s.point(own)));
        if |signature| > MAX_SIGNATURE then Err(BadIdentity)
        else match EncodeServerHello(ServerHello(nonce, s.point(own), id.certificate, signature))
          case None => Err(BadIdentity)
          case Some(wire) =>
            match Agree(s, own, client.publicKey)
            case None => Err(BadPeer)
            case Some(secret) => Ok(Response(wire, Derive(s, secret, client.nonce, nonce)))
  }

  function Complete(s: Suite, own: Data, nonce: Nonce, anchor: Data, serverWire: Data):
      Result<SessionKeys, HandshakeError>
  {
    match DecodeServerHello(serverWire)
    case None => Err(BadHello)
    case Some(server) =>
      if !s.parses(server.certificate) then Err(BadCertificate)
      else if !s.trusts(anchor, server.certificate) then Err(Untrusted)
      else if !s.verify(server.certificate,
                        Transcript(ClientHello(nonce, s.point(own)), server.nonce, server.publicKey), server.signature)
      then Err(BadSignature)
      else match Agree(s, own, server.publicKey)
        case None => Err(BadPeer)
        case Some(secret) => Ok(Derive(s, secret, nonce, server.nonce))
  }

  /** A correct signing key for the certificate, within the sizes the hello can carry. */
  ghost predicate Sound(s: Suite, id: Identity) {
    && 0 < |id.certificate| <= MAX_CERTIFICATE
    && s.parses(id.certificate)
    && forall data :: 0 < |s.sign(id.key, data)| <= MAX_SIGNATURE
                      && s.verify(id.certificate, data, s.sign(id.key, data))
  }

  /** An undisturbed handshake: the device answers, the host accepts, and the keys are the same. */
  lemma {:induction false} HandshakeAgrees(s: Suite, id: Identity, anchor: Data, host: Data, hostNonce: Nonce,
                                           device: Data, deviceNonce: Nonce)
    requires Commutative(s) && Sound(s, id) && s.trusts(anchor, id.certificate)
    ensures var answer := Respond(s, id, device, deviceNonce, EncodeClientHello(ClientHello(hostNonce, s.point(host))));
            answer.Ok? && Complete(s, host, hostNonce, anchor, answer.value.wire) == Ok(answer.value.keys)
  {
    var client := ClientHello(hostNonce, s.point(host));
    ClientHelloRoundTrip(client);
    var data := Transcript(client, deviceNonce, s.point(device));
    var server := ServerHello(deviceNonce, s.point(device), id.certificate, s.sign(id.key, data));
    assert s.verify(id.certificate, data, s.sign(id.key, data));
    assert Encodable(server);
    ServerHelloRoundTrip(server);
    assert s.point(device)[0] == 4 && s.point(host)[0] == 4;
    assert s.agree(host, s.point(device)) == s.agree(device, s.point(host));
  }

  /** One answer the device gave. */
  datatype Answer = Answer(own: Data, nonce: Nonce, clientWire: Data, response: Response)

  ghost predicate Gave(s: Suite, id: Identity, a: Answer) {
    Respond(s, id, a.own, a.nonce, a.clientWire) == Ok(a.response)
  }

  ghost predicate Signed(s: Suite, answers: seq<Answer>, data: Data) {
    exists i :: 0 <= i < |answers| && DecodeClientHello(answers[i].clientWire).Some?
      && data == Transcript(DecodeClientHello(answers[i].clientWire).value, answers[i].nonce, s.point(answers[i].own))
  }

  /** No signature verifies under the certificate except on what the device signed. */
  ghost predicate Unforged(s: Suite, certificate: Data, answers: seq<Answer>) {
    forall data, signature :: s.verify(certificate, data, signature) ==> Signed(s, answers, data)
  }

  lemma {:induction false} TranscriptInjective(c: ClientHello, n: Nonce, p: Point,
                                               c': ClientHello, n': Nonce, p': Point)
    requires Transcript(c, n, p) == Transcript(c', n', p')
    ensures c == c' && n == n' && p == p'
  {
    var t := Transcript(c, n, p);
    assert t[..101] == EncodeClientHello(c) && t[..101] == EncodeClientHello(c');
    ClientHelloRoundTrip(c);
    ClientHelloRoundTrip(c');
    assert t[101..133] == n && t[101..133] == n';
    assert t[133..] == p && t[133..] == p';
  }

  /**
    Whatever the link did to the bytes: if the device alone signs for the certificates that the host's
    anchor vouches for, and the host accepts an answer, then the device answered this very host hello
    and holds the same keys. Nothing is assumed of certificates the anchor does not vouch for.
   */
  lemma {:induction false} AcceptanceMeansAgreement(s: Suite, id: Identity, anchor: Data, host: Data, hostNonce: Nonce,
                                                    wire: Data, answers: seq<Answer>)
    requires Commutative(s) && Complete(s, host, hostNonce, anchor, wire).Ok?
    requires forall certificate ::
               s.parses(certificate) && s.trusts(anchor, certificate) ==> Unforged(s, certificate, answers)
    requires forall i :: 0 <= i < |answers| ==> Gave(s, id, answers[i])
    ensures exists i :: 0 <= i < |answers|
              && answers[i].clientWire == EncodeClientHello(ClientHello(hostNonce, s.point(host)))
              && Complete(s, host, hostNonce, anchor, wire) == Ok(answers[i].response.keys)
  {
    var server, client := DecodeServerHello(wire).value, ClientHello(hostNonce, s.point(host));
    var data := Transcript(client, server.nonce, server.publicKey);
    assert s.verify(server.certificate, data, server.signature);
    assert Signed(s, answers, data);
    var i :| 0 <= i < |answers| && DecodeClientHello(answers[i].clientWire).Some?
      && data == Transcript(DecodeClientHello(answers[i].clientWire).value, answers[i].nonce, s.point(answers[i].own));
    var a := answers[i];
    assert Gave(s, id, a);
    TranscriptInjective(client, server.nonce, server.publicKey,
                        DecodeClientHello(a.clientWire).value, a.nonce, s.point(a.own));
    ClientWireRoundTrip(a.clientWire);
    assert s.agree(host, s.point(a.own)) == s.agree(a.own, s.point(host));
  }

  const POINT: Point := [4] + seq(64, i => 0)

  /** Primitives that meet the laws above, with a certificate that vouches for one transcript only. */
  function SampleSuite(vouched: Data): Suite {
    Suite(own => POINT, (own, peer) => Some(seq(32, i => 7)), (key, data) => [1],
          (certificate, data, signature) => data == vouched, certificate => true, (anchor, certificate) => true,
          (secret, salt) => seq(88, i => 9))
  }

  /** The assumptions of agreement can be met together, by a host and a device that do talk. */
  lemma {:induction false} AgreementIsPossible(hostNonce: Nonce, deviceNonce: Nonce, id: Identity)
    requires 0 < |id.certificate| <= MAX_CERTIFICATE
    ensures var client := ClientHello(hostNonce, POINT);
            var s := SampleSuite(Transcript(client, deviceNonce, POINT));
            var r := Respond(s, id, [], deviceNonce, EncodeClientHello(client));
            && Commutative(s) && r.Ok?
            && (forall certificate :: s.parses(certificate) && s.trusts([], certificate) ==>
                  Unforged(s, certificate, [Answer([], deviceNonce, EncodeClientHello(client), r.value)]))
            && Complete(s, [], hostNonce, [], r.value.wire) == Ok(r.value.keys)
  {
    var client := ClientHello(hostNonce, POINT);
    var data := Transcript(client, deviceNonce, POINT);
    var s := SampleSuite(data);
    ClientHelloRoundTrip(client);
    var server := ServerHello(deviceNonce, POINT, id.certificate, [1]);
    assert Encodable(server);
    ServerHelloRoundTrip(server);
    var r := Respond(s, id, [], deviceNonce, EncodeClientHello(client));
    var answers := [Answer([], deviceNonce, EncodeClientHello(client), r.value)];
    assert DecodeClientHello(answers[0].clientWire) == Some(client);
    assert Signed(s, answers, data);
  }

  // ---- what is accepted, in bytes ------------------------------------------------------------

  /** The keys are four consecutive stretches of what HKDF makes of secret and both nonces, the host's first. */
  ghost predicate KeysAre(s: Suite, k: SessionKeys, secret: Secret, hostNonce: Data, deviceNonce: Data) {
    var m: seq<Byte> := s.hkdf(secret, hostNonce + deviceNonce);
    k.hostKey == m[..32] && k.deviceKey == m[32..64] && k.hostIv == m[64..76] && k.deviceIv == m[76..88]
  }

  /** The layout of a ServerHello whose certificate and signature have these lengths. */
  predicate Laid(wire: Data, certificate: nat, signature: nat) {
    && |wire| == 105 + certificate + signature && wire[..4] == [67, 83, 85, 50]
    && certificate == wire[101] as int * 256 + wire[102] && signature == wire[103] as int * 256 + wire[104]
    && 0 < certificate <= 16384 && 0 < signature <= 1024
  }

  /**
    What the host accepts, and each reason it has not to, in their order: form, certificate, trust,
    signature over both hellos, point.
   */
  lemma {:induction false} AcceptsExactly(s: Suite, own: Data, nonce: Nonce, anchor: Data, wire: Data, c: nat, g: nat)
    requires Laid(wire, c, g)
    ensures var certificate, signature, r := wire[105..105 + c], wire[105 + c..], Complete(s, own, nonce, anchor, wire);
            var signed := [67, 83, 85, 49] + nonce + s.point(own) + wire[4..36] + wire[36..101];
            && (r == Err(BadCertificate) <==> !s.parses(certificate))
            && (r == Err(Untrusted) <==> s.parses(certificate) && !s.trusts(anchor, certificate))
            && (r == Err(BadSignature) <==> s.parses(certificate) && s.trusts(anchor, certificate)
                                            && !s.verify(certificate, signed, signature))
            && (r.Ok? <==> && s.parses(certificate) && s.trusts(anchor, certificate)
                           && s.verify(certificate, signed, signature)
                           && wire[36] == 4 && s.agree(own, wire[36..101]).Some?)
            && (r.Ok? ==> KeysAre(s, r.value, s.agree(own, wire[36..101]).value, nonce, wire[4..36]))
  {
    assert ReadLength16(wire[101..103]) == c && ReadLength16(wire[103..105]) == g;
    assert DecodeServerHello(wire)
        == Some(ServerHello(wire[4..36], wire[36..101], wire[105..105 + c], wire[105 + c..]));
    hide DecodeServerHello;
  }

  lemma {:induction false} RefusesOtherForms(s: Suite, own: Data, nonce: Nonce, anchor: Data, wire: Data)
    ensures Complete(s, own, nonce, anchor, wire) == Err(BadHello) <==> !exists c, g :: Laid(wire, c, g)
  {
    if DecodeServerHello(wire).Some? {
      assert Laid(wire, wire[101] as int * 256 + wire[102], wire[103] as int * 256 + wire[104]);
    }
  }

  /** What the device answers, to which hellos, and with which keys. */
  lemma {:induction false} RespondsExactly(s: Suite, id: Identity, own: Data, nonce: Nonce, hello: Data)
    requires |hello| == 101 && hello[..4] == [67, 83, 85, 49]
    ensures var r, c := Respond(s, id, own, nonce, hello), |id.certificate|;
            var signature := s.sign(id.key, hello + nonce + s.point(own));
            && (r.Ok? <==> && 0 < c <= 16384 && 0 < |signature| <= 1024
                           && hello[36] == 4 && s.agree(own, hello[36..101]).Some?)
            && (r.Ok? ==>
                  && Laid(r.value.wire, c, |signature|)
                  && r.value.wire[4..36] == nonce && r.value.wire[36..101] == s.point(own)
                  && r.value.wire[105..105 + c] == id.certificate && r.value.wire[105 + c..] == signature
                  && KeysAre(s, r.value.keys, s.agree(own, hello[36..101]).value, hello[4..36], nonce))
  {
    var client := ClientHello(hello[4..36], hello[36..101]);
    assert DecodeClientHello(hello) == Some(client);
    ClientWireRoundTrip(hello);
    var data := Transcript(client, nonce, s.point(own));
    assert data == hello + nonce + s.point(own);
    var server := ServerHello(nonce, s.point(own), id.certificate, s.sign(id.key, data));
    if Encodable(server) {
      ServerHelloRoundTrip(server);
      ServerParts(server);
    }
    hide DecodeClientHello, Transcript, EncodeServerHello, EncodeClientHello, DecodeServerHello, Length16;
  }

  lemma {:induction false} ServerParts(h: ServerHello)
    requires Encodable(h)
    ensures var w := EncodeServerHello(h).value;
            && Laid(w, |h.certificate|, |h.signature|) && w[4..36] == h.nonce && w[36..101] == h.publicKey
            && w[105..105 + |h.certificate|] == h.certificate && w[105 + |h.certificate|..] == h.signature
    ensures EncodeServerHello(h).Some?
  {
    var w := EncodeServerHello(h).value;
    Length16RoundTrip(|h.certificate|);
    Length16RoundTrip(|h.signature|);
    assert w[101..103] == Length16(|h.certificate|) && w[103..105] == Length16(|h.signature|);
    assert w[101] == w[101..103][0] && w[102] == w[101..103][1] && w[103] == w[103..105][0] && w[104] == w[103..105][1];
    hide Length16;
  }

  lemma {:induction false} AnswersNoOther(s: Suite, id: Identity, own: Data, nonce: Nonce, hello: Data)
    ensures Respond(s, id, own, nonce, hello) == Err(BadHello) <==> |hello| != 101 || hello[..4] != [67, 83, 85, 49]
  {
  }

  /** A good signature under an untrusted certificate is refused, though all else be right. */
  lemma {:induction false} UntrustedRefused(hostNonce: Nonce, deviceNonce: Nonce, id: Identity)
    requires 0 < |id.certificate| <= MAX_CERTIFICATE
    ensures var client := ClientHello(hostNonce, POINT);
            var s := SampleSuite(Transcript(client, deviceNonce, POINT)).(trusts := (anchor, certificate) => false);
            var r := Respond(s, id, [], deviceNonce, EncodeClientHello(client));
            && r.Ok? && Complete(s, [], hostNonce, [], r.value.wire) == Err(Untrusted)
            && Complete(s.(trusts := (anchor, certificate) => true), [], hostNonce, [], r.value.wire)
               == Ok(r.value.keys)
  {
    var client := ClientHello(hostNonce, POINT);
    var data := Transcript(client, deviceNonce, POINT);
    var s := SampleSuite(data).(trusts := (anchor, certificate) => false);
    ClientHelloRoundTrip(client);
    var server := ServerHello(deviceNonce, POINT, id.certificate, [1]);
    assert Encodable(server);
    ServerHelloRoundTrip(server);
  }

  // ---- a session from handshake to records ------------------------------------------------

  function HostSends(cipher: Cipher, k: SessionKeys): Direction {
    Direction(cipher, k.hostKey, k.hostIv)
  }

  function DeviceSends(cipher: Cipher, k: SessionKeys): Direction {
    Direction(cipher, k.deviceKey, k.deviceIv)
  }

  /** The device's behaviour on its k-th hello, with that handshake's own key and nonce. */
  function DeviceResponder(s: Suite, cipher: Cipher, id: Identity, owns: nat -> Data, nonces: nat -> Nonce):
      Demux.Responder
  {
    (k: nat, hello: Data) =>
      match Respond(s, id, owns(k), nonces(k), hello)
      case Err(_) => Demux.Rejected
      case Ok(r) => Demux.Established(HostSends(cipher, r.keys), DeviceSends(cipher, r.keys))
  }

  /** ms sealed one after the other from counter n on, as items of the device's inbound stream. */
  ghost predicate SealedItems(d: Direction, n: Counter, ms: seq<Message>, items: seq<Demux.Item>)
    decreases |ms|
  {
    && |items| == |ms|
    && (ms == [] || (&& items[0].Record? && items[0].message == ms[0] && IsRecord(d, n, ms[0], items[0].wire)
                     && SealedItems(d, Advance(n), ms[1..], items[1..])))
  }

  lemma {:induction false} SealedItemsValid(env: Demux.Responder, d: Direction, n: Counter, hellos: nat,
                                            ms: seq<Message>, items: seq<Demux.Item>)
    requires Ideal(d.cipher) && SealedItems(d, n, ms, items)
    ensures Demux.Valid(env, Some(Demux.Opener(d, n)), hellos, items)
    decreases |ms|
  {
    hide Ideal, IsRecord;
    if ms != [] {
      SealedItemsValid(env, d, Advance(n), hellos, ms[1..], items[1..]);
    }
  }

  lemma {:induction false} HelloThenRecordsValid(s: Suite, cipher: Cipher, id: Identity, owns: nat -> Data,
                                                 nonces: nat -> Nonce, opener: Option<Demux.Opener>, k: nat,
                                                 hello: Data, r: Response, ms: seq<Message>, items: seq<Demux.Item>)
    requires Respond(s, id, owns(k), nonces(k), hello) == Ok(r)
    requires Ideal(cipher) && SealedItems(HostSends(cipher, r.keys), 0, ms, items)
    ensures Demux.Valid(DeviceResponder(s, cipher, id, owns, nonces), opener, k, [Demux.Hello(hello)] + items)
  {
    hide Ideal;
    SealedItemsValid(DeviceResponder(s, cipher, id, owns, nonces), HostSends(cipher, r.keys), 0, k + 1, ms, items);
    assert ([Demux.Hello(hello)] + items)[1..] == items;
    assert hello[..4] == Demux.MAGIC;
  }

  lemma {:induction false} ReconnectedStream(s: Suite, cipher: Cipher, id: Identity, owns: nat -> Data,
                                             nonces: nat -> Nonce, state: Demux.State, hello: Data, r: Response,
                                             ms: seq<Message>, items: seq<Demux.Item>, chunks: seq<Data>)
    requires Ideal(cipher) && Respond(s, id, owns(state.hellos), nonces(state.hellos), hello) == Ok(r)
    requires SealedItems(HostSends(cipher, r.keys), 0, ms, items)
    requires chunks != [] && Demux.Ready(state, chunks[0])
    requires HostBridge.Concat(chunks) == Demux.Stream([Demux.Hello(hello)] + items)
    ensures Demux.Items(Demux.Feed(DeviceResponder(s, cipher, id, owns, nonces), state, chunks).log)
         == Demux.Items(state.log) + [Demux.Hello(hello)] + items
  {
    hide *;
    var env, k, all := DeviceResponder(s, cipher, id, owns, nonces), state.hellos, [Demux.Hello(hello)] + items;
    HelloThenRecordsValid(s, cipher, id, owns, nonces, state.decrypt, k, hello, r, ms, items);
    Demux.UniqueDecoding(env, state, all, chunks);
    Demux.WholeAll(env, state.decrypt, k, all);
  }

  /**
    Whatever session the device was in, a host that reconnects between records gets a session: its
    hello is answered, it accepts the answer, and every record it then seals with the keys it got is
    delivered, in order, however the link cuts the bytes.
   */
  lemma {:induction false} ReconnectDelivers(s: Suite, cipher: Cipher, id: Identity, anchor: Data, host: Data,
                                             hostNonce: Nonce, owns: nat -> Data, nonces: nat -> Nonce,
                                             state: Demux.State, hello: Data) returns (keys: SessionKeys)
    requires Commutative(s) && Sound(s, id) && s.trusts(anchor, id.certificate) && Ideal(cipher)
    requires hello == EncodeClientHello(ClientHello(hostNonce, s.point(host)))
    ensures var answer := Respond(s, id, owns(state.hellos), nonces(state.hellos), hello);
            answer.Ok? && Complete(s, host, hostNonce, anchor, answer.value.wire) == Ok(keys)
    ensures forall ms, items, chunks ::
              && SealedItems(Direction(cipher, keys.hostKey, keys.hostIv), 0, ms, items)
              && chunks != [] && Demux.Ready(state, chunks[0])
              && HostBridge.Concat(chunks) == Demux.Stream([Demux.Hello(hello)] + items)
              ==> Demux.Items(Demux.Feed(DeviceResponder(s, cipher, id, owns, nonces), state, chunks).log)
                  == Demux.Items(state.log) + [Demux.Hello(hello)] + items
  {
    var k := state.hellos;
    HandshakeAgrees(s, id, anchor, host, hostNonce, owns(k), nonces(k));
    var r := Respond(s, id, owns(k), nonces(k), hello).value;
    keys := r.keys;
    assert HostSends(cipher, keys) == Direction(cipher, keys.hostKey, keys.hostIv);
    hide *;
    forall ms, items, chunks | && SealedItems(Direction(cipher, keys.hostKey, keys.hostIv), 0, ms, items)
                               && chunks != [] && Demux.Ready(state, chunks[0])
                               && HostBridge.Concat(chunks) == Demux.Stream([Demux.Hello(hello)] + items)
      ensures Demux.Items(Demux.Feed(DeviceResponder(s, cipher, id, owns, nonces), state, chunks).log)
           == Demux.Items(state.log) + [Demux.Hello(hello)] + items
    {
      ReconnectedStream(s, cipher, id, owns, nonces, state, hello, r, ms, items, chunks);
    }
  }

  /**
    Both directions of a live session: when the host that sent its hello has accepted the answer, the
    device seals with what that host opens with, and opens with what it seals with.
   */
  lemma {:induction false} SessionIsTheHosts(s: Suite, cipher: Cipher, id: Identity, anchor: Data, host: Data,
                                             hostNonce: Nonce, owns: nat -> Data, nonces: nat -> Nonce,
                                             state: Demux.State) returns (keys: SessionKeys)
    requires Commutative(s) && Sound(s, id) && s.trusts(anchor, id.certificate)
    requires Demux.Lifecycle(DeviceResponder(s, cipher, id, owns, nonces), state) && state.session.Some?
    requires Demux.LastAccepted(state.log) == Some(EncodeClientHello(ClientHello(hostNonce, s.point(host))))
    ensures var k, hello := state.session.value.number, EncodeClientHello(ClientHello(hostNonce, s.point(host)));
            var answer := Respond(s, id, owns(k), nonces(k), hello);
            answer.Ok? && Complete(s, host, hostNonce, anchor, answer.value.wire) == Ok(keys)
    ensures state.session.value.encrypt == Direction(cipher, keys.deviceKey, keys.deviceIv)
    ensures state.decrypt.Some? && state.decrypt.value.dir == Direction(cipher, keys.hostKey, keys.hostIv)
  {
    var env, k := DeviceResponder(s, cipher, id, owns, nonces), state.session.value.number;
    var hello := EncodeClientHello(ClientHello(hostNonce, s.point(host)));
    HandshakeAgrees(s, id, anchor, host, hostNonce, owns(k), nonces(k));
    keys := Respond(s, id, owns(k), nonces(k), hello).value.keys;
    assert env(k, hello) == Demux.Established(HostSends(cipher, keys), DeviceSends(cipher, keys));
    hide Respond, Complete, EncodeClientHello, Commutative, Sound;
    Demux.SessionOfHello(env, state.log);
  }

  /** So what that session sends is decoded by that host, in order and unaltered, under every interleaving. */
  lemma {:induction false} SessionReachesHost(s: Suite, cipher: Cipher, id: Identity, anchor: Data, host: Data,
                                              hostNonce: Nonce, owns: nat -> Data, nonces: nat -> Nonce,
                                              state: Demux.State, actions: seq<Transport.Action>)
      returns (keys: SessionKeys)
    requires Commutative(s) && Sound(s, id) && s.trusts(anchor, id.certificate) && Ideal(cipher)
    requires Demux.Lifecycle(DeviceResponder(s, cipher, id, owns, nonces), state) && state.session.Some?
    requires Demux.LastAccepted(state.log) == Some(EncodeClientHello(ClientHello(hostNonce, s.point(host))))
    ensures var k, hello := state.session.value.number, EncodeClientHello(ClientHello(hostNonce, s.point(host)));
            var answer := Respond(s, id, owns(k), nonces(k), hello);
            answer.Ok? && Complete(s, host, hostNonce, anchor, answer.value.wire) == Ok(keys)
    ensures Direction(cipher, keys.deviceKey, keys.deviceIv) == state.session.value.encrypt
    ensures var t := Transport.Run(state.session.value.encrypt, actions);
            t.burned == 0 ==> !t.host.failed && t.host.decoded <= Transport.Messages(t.items)
  {
    keys := SessionIsTheHosts(s, cipher, id, anchor, host, hostNonce, owns, nonces, state);
    hide *;
    Transport.EndToEnd(state.session.value.encrypt, actions);
  }

  /** A host that has reconnected, with its records read, is left with such a session. */
  lemma {:induction false} ReconnectLeavesSession(s: Suite, cipher: Cipher, id: Identity, anchor: Data, host: Data,
                                                  hostNonce: Nonce, owns: nat -> Data, nonces: nat -> Nonce,
                                                  state: Demux.State, ms: seq<Message>, items: seq<Demux.Item>,
                                                  chunks: seq<Data>) returns (keys: SessionKeys)
    requires Commutative(s) && Sound(s, id) && s.trusts(anchor, id.certificate) && Ideal(cipher)
    requires Demux.Lifecycle(DeviceResponder(s, cipher, id, owns, nonces), state)
    requires var hello := EncodeClientHello(ClientHello(hostNonce, s.point(host)));
             var answer := Respond(s, id, owns(state.hellos), nonces(state.hellos), hello);
             answer.Ok? && SealedItems(HostSends(cipher, answer.value.keys), 0, ms, items)
             && chunks != [] && Demux.Ready(state, chunks[0])
             && HostBridge.Concat(chunks) == Demux.Stream([Demux.Hello(hello)] + items)
    ensures var t := Demux.Feed(DeviceResponder(s, cipher, id, owns, nonces), state, chunks);
            var hello := EncodeClientHello(ClientHello(hostNonce, s.point(host)));
            && t.session.Some?
            && (var k := t.session.value.number;
                var answer := Respond(s, id, owns(k), nonces(k), hello);
                answer.Ok? && Complete(s, host, hostNonce, anchor, answer.value.wire) == Ok(keys))
            && t.session.value.encrypt == Direction(cipher, keys.deviceKey, keys.deviceIv)
            && t.decrypt.Some? && t.decrypt.value.dir == Direction(cipher, keys.hostKey, keys.hostIv)
  {
    var env, client := DeviceResponder(s, cipher, id, owns, nonces), ClientHello(hostNonce, s.point(host));
    var hello := EncodeClientHello(client);
    var r := Respond(s, id, owns(state.hellos), nonces(state.hellos), hello).value;
    RecordsOnly(HostSends(cipher, r.keys), 0, ms, items);
    hide *;
    HelloThenRecordsValid(s, cipher, id, owns, nonces, state.decrypt, state.hellos, hello, r, ms, items);
    Demux.HelloLeavesSession(env, state, hello, items, chunks);
    keys := SessionIsTheHosts(s, cipher, id, anchor, host, hostNonce, owns, nonces, Demux.Feed(env, state, chunks));
  }

  lemma {:induction false} RecordsOnly(d: Direction, n: Counter, ms: seq<Message>, items: seq<Demux.Item>)
    requires SealedItems(d, n, ms, items)
    ensures forall x :: x in items ==> x.Record?
    decreases |ms|
  {
    hide IsRecord;
    if ms != [] {
      RecordsOnly(d, Advance(n), ms[1..], items[1..]);
      assert forall x :: x in items ==> x == items[0] || x in items[1..];
    }
  }
}
