/**
 * The authenticated key exchange that precedes every session: the server as a
 * state machine fed one record at a time, the client as one straight line.
 */
module Handshake {
  import opened Wrappers
  import opened ByteStrings
  import opened Crypto
  import opened Protocol
  import opened Session
  import Framing
  import Dh
  import HashInputs

  // ------------------------------------------------------------------ encodings

  predicate IsType(body: Bytes, kind: Byte) {
    body != [] && body[0] == kind
  }

  function ClientHello(version: Byte, random: Bytes): Bytes {
    [HS_CLIENT_HELLO, version] + random
  }

  /** [sub-type][length:2][field]; the length is cut to 16 bits. */
  function Field(kind: Byte, field: Bytes): Bytes {
    [kind] + BigEndian(|field|, 2) + field
  }

  function ServerKex(version: Byte, pub: Bytes): Bytes {
    [HS_SERVER_KEX, version] + BigEndian(|pub|, 2) + pub
  }

  /** The field of such a record, if the length fits it exactly. */
  function FieldOf(body: Bytes): Option<Bytes> {
    if |body| < 3 || 3 + FromBigEndian(body[1..3]) != |body| then None else Some(body[3..])
  }

  lemma FieldRoundTrip(kind: Byte, field: Bytes)
    requires |field| < TWO_16
    ensures Field(kind, field)[0] == kind && FieldOf(Field(kind, field)) == Some(field)
  {
    var v := Field(kind, field);
    Widths();
    BigEndianRoundTrip(|field|, 2);
    assert v[1..3] == BigEndian(|field|, 2) && v[3..] == field;
  }

  // --------------------------------------------------------------------- server

  /** The private key, known only by what it signs. */
  datatype Signer = Signer(sign: Bytes -> Option<Bytes>)

  datatype Step = AwaitClientHello | AwaitClientKex | Complete

  datatype Status = NeedMore(replies: seq<Bytes>) | Done | Failed(error: string)

  datatype ServerState = ServerState(step: Step, kp: Option<Dh.Ephemeral>, random: Bytes, serverPub: Bytes,
                           cert: Bytes, key: Option<Signer>, keys: Keys)

  function Fresh(cert: Bytes, key: Option<Signer>): ServerState {
    ServerState(AwaitClientHello, None, [], [], cert, key, BlankKeys())
  }

  function OnHello(s: ServerState, body: Bytes, rnd: Option<nat>): (ServerState, Status) {
    if !IsType(body, HS_CLIENT_HELLO) then (s, Failed("expected ClientHello"))
    else if |body| != 2 + CLIENT_RANDOM_LEN then (s, Failed("bad ClientHello length"))
    else if body[1] != VERSION then (s, Failed("version mismatch"))
    else if s.cert == [] || s.key.None? then (s, Failed("server has no credentials"))
    else
      var s := s.(random := body[2..]);
      if rnd.None? then (s, Failed("DH keygen failed"))
      else
        var pub := Dh.PublicBytes(rnd.value);
        var s := s.(kp := Some(Dh.Ephemeral(rnd.value, pub)), serverPub := pub);
        match s.key.value.sign(ProofTranscript(VERSION, s.random, s.cert, pub))
        case None => (s, Failed("signing failed"))
        case Some(sig) =>
          (s.(step := AwaitClientKex),
           NeedMore([Field(HS_SERVER_CERT, s.cert), ServerKex(VERSION, pub), Field(HS_SERVER_PROOF, sig)]))
  }

  function OnClientKex(s: ServerState, body: Bytes): (ServerState, Status) {
    if !IsType(body, HS_CLIENT_KEX) then (s, Failed("expected ClientKex"))
    else if FieldOf(body).None? || |FieldOf(body).value| != Dh.MODULUS_BYTES then (s, Failed("bad ClientKex length"))
    else if s.kp.None? then (s, Failed("invalid client public value"))
    else
      var clientPub := FieldOf(body).value;
      match Dh.SharedSecret(s.kp.value.priv, clientPub)
      case None => (s, Failed("invalid client public value"))
      case Some(z) =>
        var th := TranscriptHash(VERSION, s.random, s.cert, s.serverPub, clientPub);
        (s.(keys := DeriveKeys(z, th), step := Complete), Done)
  }

  /** One handshake record; rnd is the outcome of key generation, if it comes to that. */
  function FeedServer(s: ServerState, body: Bytes, rnd: Option<nat>): (ServerState, Status) {
    if body == [] then (s, Failed("empty handshake record"))
    else
      match s.step
      case AwaitClientHello => OnHello(s, body, rnd)
      case AwaitClientKex => OnClientKex(s, body)
      case Complete => (s, Failed("unexpected handshake record after completion"))
  }

  class ServerHandshake {
    var step: Step
    var kp: Option<Dh.Ephemeral>
    var random: Bytes
    var serverPub: Bytes
    var cert: Bytes
    var key: Option<Signer>
    var keys: Keys

    function View(): ServerState
      reads this
    {
      ServerState(step, kp, random, serverPub, cert, key, keys)
    }

    constructor ()
      ensures View() == Fresh([], None)
    {
      step, kp, random, serverPub := AwaitClientHello, None, [], [];
      cert, key, keys := [], None, BlankKeys();
    }

    method SetCredentials(certDer: Bytes, signer: Signer)
      modifies this
      ensures View() == old(View()).(cert := certDer, key := Some(signer))
    {
      cert := certDer;
      key := Some(signer);
    }

    method Feed(body: Bytes, rnd: Option<nat>) returns (status: Status)
      modifies this
      ensures (View(), status) == FeedServer(old(View()), body, rnd)
    {
      hide Dh.PublicBytes, Dh.SharedSecret, DeriveKeys, TranscriptHash;
      if |body| < 1 {
        return Failed("empty handshake record");
      }
      var kind := body[0];
      if step == AwaitClientHello {
        if kind != HS_CLIENT_HELLO {
          return Failed("expected ClientHello");
        }
        if |body| != 2 + CLIENT_RANDOM_LEN {
          return Failed("bad ClientHello length");
        }
        if body[1] != VERSION {
          return Failed("version mismatch");
        }
        if cert == [] || key.None? {
          return Failed("server has no credentials");
        }
        random := body[2..];
        var pair := new Dh.KeyPair();
        var ok := pair.Generate(rnd);
        if !ok {
          return Failed("DH keygen failed");
        }
        kp := Some(Dh.Ephemeral(rnd.value, pair.pub));
        serverPub := pair.pub;
        var sig := key.value.sign(ProofTranscript(VERSION, random, cert, serverPub));
        if sig.None? {
          return Failed("signing failed");
        }
        var replies := [Field(HS_SERVER_CERT, cert)];
        replies := replies + [ServerKex(VERSION, serverPub)];
        replies := replies + [Field(HS_SERVER_PROOF, sig.value)];
        step := AwaitClientKex;
        assert replies == [Field(HS_SERVER_CERT, cert), ServerKex(VERSION, serverPub), Field(HS_SERVER_PROOF, sig.value)];
        status := NeedMore(replies);
      } else if step == AwaitClientKex {
        if kind != HS_CLIENT_KEX {
          return Failed("expected ClientKex");
        }
        var clientPub := FieldOf(body);
        if clientPub.None? || |clientPub.value| != Dh.MODULUS_BYTES {
          return Failed("bad ClientKex length");
        }
        if kp.None? {
          return Failed("invalid client public value");
        }
        var pair := new Dh.KeyPair.Moved(kp.value);
        var z := pair.ComputeShared(clientPub.value);
        if z.None? {
          return Failed("invalid client public value");
        }
        keys := DeriveKeys(z.value, TranscriptHash(VERSION, random, cert, serverPub, clientPub.value));
        step := Complete;
        status := Done;
      } else {
        status := Failed("unexpected handshake record after completion");
      }
    }
  }

  // --------------------------------------------------------------------- client

  /** What the client is configured to accept. */
  datatype Trust = Trust(validate: Bytes -> bool, verify: (Bytes, Bytes, Bytes) -> bool)

  /** The client's outcome; `kex` is its own contribution if it got as far as sending one. */
  datatype Outcome =
    | Aborted(error: string, kex: Option<Bytes>)
    | Established(answer: Bytes, keys: Keys)

  /** One handshake record of the expected sub-type. */
  function Expect(inbox: seq<Framing.Record>, i: nat, kind: Byte): Result<Bytes> {
    if i >= |inbox| then Err("connection closed during handshake")
    else if inbox[i].kind == REC_ALERT then Err("server alert")
    else if inbox[i].kind != REC_HANDSHAKE || !IsType(inbox[i].body, kind) then Err("unexpected handshake record")
    else Ok(inbox[i].body)
  }

  /** The fields of the server's three records, or the first complaint about them. */
  function ServerFlight(version: Byte, inbox: seq<Framing.Record>): Result<(Bytes, Bytes, Bytes)> {
    match Expect(inbox, 0, HS_SERVER_CERT)
    case Err(e) => Err(e)
    case Ok(certBody) =>
      if FieldOf(certBody).None? then Err("bad ServerCert length")
      else
        match Expect(inbox, 1, HS_SERVER_KEX)
        case Err(e) => Err(e)
        case Ok(kexBody) =>
          if |kexBody| < 4 || kexBody[1] != version then Err("bad ServerKex")
          else if FromBigEndian(kexBody[2..4]) != Dh.MODULUS_BYTES || |kexBody| != 4 + Dh.MODULUS_BYTES
          then Err("bad ServerKex length")
          else
            match Expect(inbox, 2, HS_SERVER_PROOF)
            case Err(e) => Err(e)
            case Ok(proofBody) =>
              if FieldOf(proofBody).None? then Err("bad ServerProof length")
              else Ok((FieldOf(certBody).value, kexBody[4..], FieldOf(proofBody).value))
  }

  /** Everything the client does after sending its hello, given the records the server answers with. */
  function FinishClient(version: Byte, random: Bytes, inbox: seq<Framing.Record>, trust: Trust, rnd: Option<nat>): Outcome {
    match ServerFlight(version, inbox)
    case Err(e) => Aborted(e, None)
    case Ok((cert, serverPub, sig)) =>
      if !trust.validate(cert) then Aborted("certificate rejected", None)
      else if !trust.verify(cert, ProofTranscript(version, random, cert, serverPub), sig)
      then Aborted("proof of possession failed", None)
      else if rnd.None? then Aborted("DH keygen failed", None)
      else
        var pub := Dh.PublicBytes(rnd.value);
        var kex := Field(HS_CLIENT_KEX, pub);
        match Dh.SharedSecret(rnd.value, serverPub)
        case None => Aborted("invalid server public value", Some(kex))
        case Some(z) => Established(kex, DeriveKeys(z, TranscriptHash(version, random, cert, serverPub, pub)))
  }

  /**
   * The client, from the first reply on: reads the three records in turn,
   * validates, contributes, and installs the keys in its session.
   */
  method RunClient(version: Byte, random: Bytes, inbox: seq<Framing.Record>, trust: Trust, rnd: Option<nat>, out: Session)
    returns (o: Outcome)
    modifies out
    ensures o == FinishClient(version, random, inbox, trust, rnd)
    ensures out.View() == if o.Established? then Endpoint(o.keys, Client, true, 0, 0) else old(out.View())
  {
    hide Dh.PublicBytes, Dh.SharedSecret, DeriveKeys, TranscriptHash, ProofTranscript, FieldOf, Expect;
    var body := Expect(inbox, 0, HS_SERVER_CERT);
    if body.Err? {
      return Aborted(body.error, None);
    }
    var cert := FieldOf(body.value);
    if cert.None? {
      return Aborted("bad ServerCert length", None);
    }
    body := Expect(inbox, 1, HS_SERVER_KEX);
    if body.Err? {
      return Aborted(body.error, None);
    }
    var kexBody := body.value;
    if |kexBody| < 4 || kexBody[1] != version {
      return Aborted("bad ServerKex", None);
    }
    var plen := FromBigEndian(kexBody[2..4]);
    if plen != Dh.MODULUS_BYTES || |kexBody| != 4 + plen {
      return Aborted("bad ServerKex length", None);
    }
    var serverPub := kexBody[4..];
    body := Expect(inbox, 2, HS_SERVER_PROOF);
    if body.Err? {
      return Aborted(body.error, None);
    }
    var sig := FieldOf(body.value);
    if sig.None? {
      return Aborted("bad ServerProof length", None);
    }
    if !trust.validate(cert.value) {
      return Aborted("certificate rejected", None);
    }
    if !trust.verify(cert.value, ProofTranscript(version, random, cert.value, serverPub), sig.value) {
      return Aborted("proof of possession failed", None);
    }
    var kp := new Dh.KeyPair();
    var ok := kp.Generate(rnd);
    if !ok {
      return Aborted("DH keygen failed", None);
    }
    var kex := Field(HS_CLIENT_KEX, kp.pub);
    var z := kp.ComputeShared(serverPub);
    if z.None? {
      return Aborted("invalid server public value", Some(kex));
    }
    var k := DeriveKeys(z.value, TranscriptHash(version, random, cert.value, serverPub, kp.pub));
    out.Install(k, Client);
    o := Established(kex, k);
  }

  /** The client contributes its public value only after certificate and proof were accepted. */
  lemma NothingRevealedUnvalidated(version: Byte, random: Bytes, inbox: seq<Framing.Record>, trust: Trust, rnd: Option<nat>)
    ensures var o := FinishClient(version, random, inbox, trust, rnd);
            o.Established? || o.kex.Some? ==>
              && ServerFlight(version, inbox).Ok?
              && var (cert, serverPub, sig) := ServerFlight(version, inbox).value;
                 trust.validate(cert) && trust.verify(cert, ProofTranscript(version, random, cert, serverPub), sig)
  {
    hide Dh.PublicBytes, Dh.SharedSecret, DeriveKeys;
  }

  // ---------------------------------------------------------------- composition

  function AsRecords(bodies: seq<Bytes>): (rs: seq<Framing.Record>)
    ensures |rs| == |bodies| && forall i :: 0 <= i < |bodies| ==> rs[i] == Framing.Record(REC_HANDSHAKE, bodies[i])
  {
    seq(|bodies|, i requires 0 <= i < |bodies| => Framing.Record(REC_HANDSHAKE, bodies[i]))
  }

  /** The server's three replies are read back by the client as the fields they were made from. */
  lemma FlightRoundTrip(cert: Bytes, pub: Bytes, sig: Bytes)
    requires |cert| < TWO_16 && |sig| < TWO_16 && |pub| == Dh.MODULUS_BYTES
    ensures ServerFlight(VERSION, AsRecords([Field(HS_SERVER_CERT, cert), ServerKex(VERSION, pub),
                                             Field(HS_SERVER_PROOF, sig)]))
         == Ok((cert, pub, sig))
  {
    FieldRoundTrip(HS_SERVER_CERT, cert);
    FieldRoundTrip(HS_SERVER_PROOF, sig);
    var k := ServerKex(VERSION, pub);
    Widths();
    BigEndianRoundTrip(|pub|, 2);
    assert IsType(k, HS_SERVER_KEX) && k[1] == VERSION && k[2..4] == BigEndian(|pub|, 2) && k[4..] == pub;
  }

  /** The hello is answered with exactly the three records of the server's flight. */
  lemma HelloAnswered(random: Bytes, y: nat, cert: Bytes, signer: Signer, sig: Bytes)
    requires |random| == CLIENT_RANDOM_LEN && cert != []
    requires signer.sign(ProofTranscript(VERSION, random, cert, Dh.PublicBytes(y))) == Some(sig)
    ensures var (s, status) := FeedServer(Fresh(cert, Some(signer)), ClientHello(VERSION, random), Some(y));
            && s.step == AwaitClientKex && s.kp == Some(Dh.Ephemeral(y, Dh.PublicBytes(y)))
            && s.random == random && s.serverPub == Dh.PublicBytes(y) && s.cert == cert
            && status == NeedMore([Field(HS_SERVER_CERT, cert), ServerKex(VERSION, Dh.PublicBytes(y)),
                                   Field(HS_SERVER_PROOF, sig)])
  {
    hide Dh.PublicBytes, Field, ServerKex;
    var hello := ClientHello(VERSION, random);
    assert hello[2..] == random;
  }

  /**
   * An honest run completes: for every nonce, pair of exponents and certificate
   * that fits a record, the server's replies satisfy the client, the client's
   * answer makes the server report Done, and both hold the same keys.
   */
  lemma Completes(random: Bytes, x: nat, y: nat, cert: Bytes, signer: Signer, sig: Bytes, trust: Trust)
    requires |random| == CLIENT_RANDOM_LEN && cert != []
    requires signer.sign(ProofTranscript(VERSION, random, cert, Dh.PublicBytes(y))) == Some(sig)
    requires Framing.Fits(Framing.Record(REC_HANDSHAKE, Field(HS_SERVER_CERT, cert)))
    requires Framing.Fits(Framing.Record(REC_HANDSHAKE, Field(HS_SERVER_PROOF, sig)))
    requires trust.validate(cert)
    requires trust.verify(cert, ProofTranscript(VERSION, random, cert, Dh.PublicBytes(y)), sig)
    ensures var (s, status) := FeedServer(Fresh(cert, Some(signer)), ClientHello(VERSION, random), Some(y));
            && status.NeedMore? && |status.replies| == 3 && s.step == AwaitClientKex
            && (forall r :: r in AsRecords(status.replies) ==> Framing.Fits(r))
            && (Dh.ValidPublic(Dh.PublicBytes(x)) && Dh.ValidPublic(Dh.PublicBytes(y)) ==>
                  var client := FinishClient(VERSION, random, AsRecords(status.replies), trust, Some(x));
                  && client.Established?
                  && Framing.Fits(Framing.Record(REC_HANDSHAKE, client.answer))
                  && var (s', status') := FeedServer(s, client.answer, None);
                     status' == Done && s'.step == Complete && s'.keys == client.keys)
  {
    HelloAnswered(random, y, cert, signer, sig);
    FlightRoundTrip(cert, Dh.PublicBytes(y), sig);
    FieldRoundTrip(HS_CLIENT_KEX, Dh.PublicBytes(x));
    Dh.Agreement(x, y);
    hide Dh.PublicBytes, Dh.SharedSecret, Dh.ValidPublic, DeriveKeys, TranscriptHash, ServerFlight, FieldOf, ProofTranscript;
  }

  // ------------------------------------------------- exactly what is accepted

  /** Octets that are a field of this kind are exactly the encodings of fields of at most 16-bit length. */
  lemma FieldExact(body: Bytes, kind: Byte, field: Bytes)
    ensures IsType(body, kind) && FieldOf(body) == Some(field) <==> |field| < TWO_16 && body == Field(kind, field)
  {
    Widths();
    if IsType(body, kind) && FieldOf(body) == Some(field) {
      FromBigEndianRoundTrip(body[1..3]);
      assert body == [body[0]] + body[1..3] + body[3..];
    } else if |field| < TWO_16 && body == Field(kind, field) {
      FieldRoundTrip(kind, field);
    }
  }

  /** Octets that begin as a hello of this version and have its length are a hello. */
  lemma HelloExact(body: Bytes)
    ensures IsType(body, HS_CLIENT_HELLO) && |body| == 2 + CLIENT_RANDOM_LEN && body[1] == VERSION
            <==> |body| == 2 + CLIENT_RANDOM_LEN && body == ClientHello(VERSION, body[2..])
    ensures forall r :: body == ClientHello(VERSION, r) ==> |body| == 2 + |r| && body[2..] == r
  {
    if |body| == 2 + CLIENT_RANDOM_LEN {
      assert body == [body[0], body[1]] + body[2..];
    }
  }

  /** What the server signs for a client nonce and its own exponent. */
  function Proof(s: ServerState, random: Bytes, y: nat): Option<Bytes> {
    match s.key
    case None => None
    case Some(key) => key.sign(ProofTranscript(VERSION, random, s.cert, Dh.PublicBytes(y)))
  }

  /**
   * A hello is answered if and only if it is one of this version with a nonce of
   * the right length, there are credentials, and generation and signing succeed.
   */
  lemma HelloAccepted(s: ServerState, body: Bytes, rnd: Option<nat>)
    requires s.step == AwaitClientHello
    ensures var (n, status) := FeedServer(s, body, rnd);
            && (status.NeedMore? <==>
                  && s.cert != [] && rnd.Some?
                  && exists r :: |r| == CLIENT_RANDOM_LEN && body == ClientHello(VERSION, r) && Proof(s, r, rnd.value).Some?)
            && !status.Done? && (status.NeedMore? <==> n.step == AwaitClientKex)
            && (status.Failed? ==> n.step == AwaitClientHello && n.keys == s.keys)
  {
    hide Proof, ClientHello, FeedServer, IsType;
    HelloNeeds(s, body, rnd);
    HelloExact(body);
  }

  lemma HelloNeeds(s: ServerState, body: Bytes, rnd: Option<nat>)
    requires s.step == AwaitClientHello
    ensures var (n, status) := FeedServer(s, body, rnd);
            && (status.NeedMore? <==>
                  && IsType(body, HS_CLIENT_HELLO) && |body| == 2 + CLIENT_RANDOM_LEN && body[1] == VERSION
                  && s.cert != [] && rnd.Some? && Proof(s, body[2..], rnd.value).Some?)
            && !status.Done? && (status.NeedMore? <==> n.step == AwaitClientKex)
            && (status.Failed? ==> n.step == AwaitClientHello && n.keys == s.keys)
  {
    hide Dh.PublicBytes, ProofTranscript, Field, ServerKex;
  }

  /**
   * A key exchange completes the handshake if and only if it is the encoding of a
   * public value in range and a key pair is there; the keys are then those of the
   * secret and the transcript. Everything else fails and changes nothing.
   */
  lemma KexAccepted(s: ServerState, body: Bytes, rnd: Option<nat>)
    requires s.step == AwaitClientKex
    ensures var (n, status) := FeedServer(s, body, rnd);
            && (status.Done? <==> s.kp.Some? && exists y :: Dh.ValidPublic(y) && body == Field(HS_CLIENT_KEX, y))
            && !status.NeedMore? && (status.Failed? ==> n == s)
            && (status.Done? ==>
                  forall y :: body == Field(HS_CLIENT_KEX, y) && Dh.ValidPublic(y) ==>
                    && Dh.SharedSecret(s.kp.value.priv, y).Some?
                    && n == s.(step := Complete,
                               keys := DeriveKeys(Dh.SharedSecret(s.kp.value.priv, y).value,
                                                  TranscriptHash(VERSION, s.random, s.cert, s.serverPub, y))))
  {
    KexFieldExact(body);
    hide Dh.PublicBytes, Dh.SharedSecret, Dh.ValidPublic, DeriveKeys, TranscriptHash, FieldOf, Field;
    if IsType(body, HS_CLIENT_KEX) && FieldOf(body).Some? {
      assert body == Field(HS_CLIENT_KEX, FieldOf(body).value);
    }
  }

  lemma KexFieldExact(body: Bytes)
    ensures IsType(body, HS_CLIENT_KEX) && FieldOf(body).Some? ==> body == Field(HS_CLIENT_KEX, FieldOf(body).value)
    ensures forall y :: Dh.ValidPublic(y) && body == Field(HS_CLIENT_KEX, y) ==>
                          |y| == Dh.MODULUS_BYTES && IsType(body, HS_CLIENT_KEX) && FieldOf(body) == Some(y)
  {
    hide FieldOf, Field, IsType;
    if FieldOf(body).Some? {
      FieldExact(body, HS_CLIENT_KEX, FieldOf(body).value);
    }
    forall y | Dh.ValidPublic(y) && body == Field(HS_CLIENT_KEX, y)
      ensures |y| == Dh.MODULUS_BYTES && IsType(body, HS_CLIENT_KEX) && FieldOf(body) == Some(y)
    {
      FieldExact(body, HS_CLIENT_KEX, y);
    }
  }

  /** After completion, or without content, a record fails and changes nothing. */
  lemma NothingAfterwards(s: ServerState, body: Bytes, rnd: Option<nat>)
    requires s.step == Complete || body == []
    ensures FeedServer(s, body, rnd).0 == s && FeedServer(s, body, rnd).1.Failed?
  {
  }

  /** The inbox begins with the three records of a flight of this version. */
  predicate BeginsWithFlight(version: Byte, inbox: seq<Framing.Record>, cert: Bytes, pub: Bytes, sig: Bytes) {
    && |cert| < TWO_16 && |sig| < TWO_16 && |pub| == Dh.MODULUS_BYTES
    && AsRecords([Field(HS_SERVER_CERT, cert), ServerKex(version, pub), Field(HS_SERVER_PROOF, sig)]) <= inbox
  }

  /** Octets accepted as the key-exchange record of a version are exactly its encodings of full-width values. */
  lemma KexRecordExact(version: Byte, body: Bytes, pub: Bytes)
    ensures && IsType(body, HS_SERVER_KEX) && |body| == 4 + Dh.MODULUS_BYTES && body[1] == version
            && FromBigEndian(body[2..4]) == Dh.MODULUS_BYTES && body[4..] == pub
            <==> |pub| == Dh.MODULUS_BYTES && body == ServerKex(version, pub)
  {
    Widths();
    if |pub| == Dh.MODULUS_BYTES && body == ServerKex(version, pub) {
      BigEndianRoundTrip(|pub|, 2);
      assert body[2..4] == BigEndian(|pub|, 2) && body[4..] == pub;
    } else if IsType(body, HS_SERVER_KEX) && |body| == 4 + Dh.MODULUS_BYTES
              && FromBigEndian(body[2..4]) == Dh.MODULUS_BYTES {
      FromBigEndianRoundTrip(body[2..4]);
      assert body == [body[0], body[1]] + body[2..4] + body[4..];
    }
  }

  /** The client takes a certificate, a value and a proof from exactly the three records made of them. */
  lemma FlightExact(version: Byte, inbox: seq<Framing.Record>, cert: Bytes, pub: Bytes, sig: Bytes)
    ensures ServerFlight(version, inbox) == Ok((cert, pub, sig)) <==> BeginsWithFlight(version, inbox, cert, pub, sig)
  {
    hide FieldOf, Field, ServerKex, IsType;
    if |inbox| >= 3 {
      FieldExact(inbox[0].body, HS_SERVER_CERT, cert);
      KexRecordExact(version, inbox[1].body, pub);
      FieldExact(inbox[2].body, HS_SERVER_PROOF, sig);
      assert AsRecords([Field(HS_SERVER_CERT, cert), ServerKex(version, pub), Field(HS_SERVER_PROOF, sig)])
          == [Framing.Record(REC_HANDSHAKE, Field(HS_SERVER_CERT, cert)),
              Framing.Record(REC_HANDSHAKE, ServerKex(version, pub)),
              Framing.Record(REC_HANDSHAKE, Field(HS_SERVER_PROOF, sig))];
    }
  }

  /**
   * The client establishes a session if and only if the inbox begins with a
   * flight of its version whose certificate and proof are accepted and whose
   * value is in range, and its own key pair could be generated.
   */
  lemma EstablishedExactly(version: Byte, random: Bytes, inbox: seq<Framing.Record>, trust: Trust, rnd: Option<nat>)
    ensures FinishClient(version, random, inbox, trust, rnd).Established? <==>
              && rnd.Some?
              && exists cert, pub, sig ::
                   && BeginsWithFlight(version, inbox, cert, pub, sig) && Dh.ValidPublic(pub) && trust.validate(cert)
                   && trust.verify(cert, ProofTranscript(version, random, cert, pub), sig)
  {
    forall cert, pub, sig
      ensures ServerFlight(version, inbox) == Ok((cert, pub, sig)) <==> BeginsWithFlight(version, inbox, cert, pub, sig)
    {
      FlightExact(version, inbox, cert, pub, sig);
    }
    hide ServerFlight, BeginsWithFlight, Dh.PublicBytes, Dh.ValidPublic, DeriveKeys, TranscriptHash, ProofTranscript, Field;
    if ServerFlight(version, inbox).Ok? {
      var (cert, pub, sig) := ServerFlight(version, inbox).value;
      assert BeginsWithFlight(version, inbox, cert, pub, sig);
    }
  }

  function FeedAll(s: ServerState, bodies: seq<Bytes>, rnds: seq<Option<nat>>): (ServerState, seq<Status>)
    requires |bodies| == |rnds|
    decreases |bodies|
  {
    if bodies == [] then (s, [])
    else
      var (s', status) := FeedServer(s, bodies[0], rnds[0]);
      var (e, rest) := FeedAll(s', bodies[1..], rnds[1..]);
      (e, [status] + rest)
  }

  function Dones(statuses: seq<Status>): nat {
    if statuses == [] then 0 else (if statuses[0].Done? then 1 else 0) + Dones(statuses[1..])
  }

  /** Whatever is fed, the server reports Done at most once, and its keys never change after that. */
  lemma {:induction false} DoneAtMostOnce(s: ServerState, bodies: seq<Bytes>, rnds: seq<Option<nat>>)
    requires |bodies| == |rnds|
    ensures var (e, statuses) := FeedAll(s, bodies, rnds);
            && Dones(statuses) <= (if s.step == Complete then 0 else 1)
            && (s.step == Complete ==> e.step == Complete && e.keys == s.keys)
            && (Dones(statuses) == 1 ==> e.step == Complete)
    decreases |bodies|
  {
    hide Dh.PublicBytes, Dh.SharedSecret, DeriveKeys, TranscriptHash;
    if bodies == [] {
    } else {
      var (s', status) := FeedServer(s, bodies[0], rnds[0]);
      DoneAtMostOnce(s', bodies[1..], rnds[1..]);
      var (e, rest) := FeedAll(s', bodies[1..], rnds[1..]);
      assert ([status] + rest)[1..] == rest;
    }
  }

  /**
   * The whole handshake is bound into the keys: two ends that share any one of
   * the derived values, also the salt or the fingerprint, saw the same nonce,
   * certificate and public values and hold the same secret.
   */
  lemma KeysBindTranscript(z: Bytes, random: Bytes, cert: Bytes, serverPub: Bytes, clientPub: Bytes,
                           z': Bytes, random': Bytes, cert': Bytes, serverPub': Bytes, clientPub': Bytes)
    requires |z| == |z'| == Dh.MODULUS_BYTES && |random| == |random'| == CLIENT_RANDOM_LEN
    requires |serverPub| == |serverPub'| == |clientPub| == |clientPub'| == Dh.MODULUS_BYTES
    requires var k := DeriveKeys(z, TranscriptHash(VERSION, random, cert, serverPub, clientPub));
             var k' := DeriveKeys(z', TranscriptHash(VERSION, random', cert', serverPub', clientPub'));
             k.c2s == k'.c2s || k.s2c == k'.s2c || k.salt == k'.salt || k.fingerprint == k'.fingerprint
    ensures z == z' && random == random' && cert == cert' && serverPub == serverPub' && clientPub == clientPub'
  {
    hide HashInputs.InputOf, HashInputs.Sized, DeriveKeys, TranscriptHash;
    var th := TranscriptHash(VERSION, random, cert, serverPub, clientPub);
    var th' := TranscriptHash(VERSION, random', cert', serverPub', clientPub');
    TranscriptDigest(random, cert, serverPub, clientPub);
    TranscriptDigest(random', cert', serverPub', clientPub');
    SessionDigests(z, th);
    SessionDigests(z', th');
    var k, k' := DeriveKeys(z, th), DeriveKeys(z', th');
    if k.c2s == k'.c2s {
      HashInputs.DigestsDetermine(HashInputs.ClientKey(z, th), HashInputs.ClientKey(z', th'), 32);
    } else if k.s2c == k'.s2c {
      HashInputs.DigestsDetermine(HashInputs.ServerKey(z, th), HashInputs.ServerKey(z', th'), 32);
    } else if k.salt == k'.salt {
      HashInputs.DigestsDetermine(HashInputs.SessionSalt(z, th), HashInputs.SessionSalt(z', th'), SALT_LEN);
    } else {
      HashInputs.DigestsDetermine(HashInputs.SessionPrint(z, th), HashInputs.SessionPrint(z', th'), 8);
    }
    HashInputs.DigestsDetermine(HashInputs.TranscriptOf(random, cert, serverPub, clientPub),
                                HashInputs.TranscriptOf(random', cert', serverPub', clientPub'), 32);
  }

  lemma TranscriptDigest(random: Bytes, cert: Bytes, serverPub: Bytes, clientPub: Bytes)
    requires |random| == CLIENT_RANDOM_LEN && |serverPub| == |clientPub| == Dh.MODULUS_BYTES
    ensures var d := HashInputs.TranscriptOf(random, cert, serverPub, clientPub);
            var th := TranscriptHash(VERSION, random, cert, serverPub, clientPub);
            HashInputs.Sized(d) && |th| == 32 && th == Sha256(HashInputs.InputOf(d))[..32]
  {
    hide Transcript;
  }

  lemma SessionDigests(z: Bytes, th: seq<Octet>)
    requires |z| == Dh.MODULUS_BYTES && |th| == 32
    ensures HashInputs.Sized(HashInputs.ClientKey(z, th)) && HashInputs.Sized(HashInputs.ServerKey(z, th))
    ensures HashInputs.Sized(HashInputs.SessionSalt(z, th)) && HashInputs.Sized(HashInputs.SessionPrint(z, th))
    ensures var k := DeriveKeys(z, th);
            && k.c2s == Sha256(HashInputs.InputOf(HashInputs.ClientKey(z, th)))[..32]
            && k.s2c == Sha256(HashInputs.InputOf(HashInputs.ServerKey(z, th)))[..32]
            && k.salt == Sha256(HashInputs.InputOf(HashInputs.SessionSalt(z, th)))[..SALT_LEN]
            && k.fingerprint == Sha256(HashInputs.InputOf(HashInputs.SessionPrint(z, th)))[..8]
  {
    hide Labelled;
  }
}
