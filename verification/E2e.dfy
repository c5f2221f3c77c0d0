/**
 * End-to-end sessions between two clients: the initial key exchange, the
 * periodic rotation of the key into a new epoch, and the messages sealed under
 * each epoch.
 */
module E2e {
  import opened Wrappers
  import opened ByteStrings
  import opened Crypto
  import opened Protocol
  import Names
  import Base64
  import Dh

  const TAG_INIT: string := "__E2E_INIT__"
  const TAG_ACK: string := "__E2E_ACK__"
  const TAG_MSG: string := "__E2E_MSG__"

  // Time is counted in clock ticks; the configured delays are in seconds.
  const SECOND: int := 1_000_000_000

  datatype Timing = Timing(rekey: nat, fallback: nat, grace: nat)

  // ------------------------------------------------------------ wire payloads

  /** [version][epoch:4][public value length:2][public value] */
  function KexBytes(epoch: nat, pub: Bytes): Bytes {
    [VERSION] + BigEndian(epoch, 4) + BigEndian(|pub|, 2) + pub
  }

  function KexText(epoch: nat, pub: Bytes): string {
    Base64.Encoded(KexBytes(epoch, pub))
  }

  function ParseKex(v: Bytes): Option<(nat, Bytes)> {
    if |v| < 7 || v[0] != VERSION then None
    else
      var plen := FromBigEndian(v[5..7]);
      if |v| != 7 + plen || plen != Dh.MODULUS_BYTES then None
      else Some((FromBigEndian(v[1..5]), v[7..]))
  }

  function KexOf(text: string): Option<(nat, Bytes)> {
    match Base64.Decoded(text)
    case None => None
    case Some(v) => ParseKex(v)
  }

  method EncodeKex(epoch: nat, pub: Bytes) returns (text: string)
    requires epoch < TWO_32
    ensures text == KexText(epoch, pub)
  {
    var v: Bytes := [VERSION];
    v := v + BigEndian(epoch, 4);
    v := v + BigEndian(|pub|, 2);
    v := v + pub;
    text := Base64.Encode(v);
  }

  method DecodeKex(text: string) returns (r: Option<(nat, Bytes)>)
    ensures r == KexOf(text)
  {
    var v := Base64.Decode(text);
    r := match v case None => None case Some(b) => ParseKex(b);
  }

  lemma KexBytesParts(epoch: nat, pub: Bytes)
    ensures var v := KexBytes(epoch, pub);
            && |v| == 7 + |pub| && v[0] == VERSION && v[1..5] == BigEndian(epoch, 4)
            && v[5..7] == BigEndian(|pub|, 2) && v[7..] == pub
  {
    hide BigEndian;
  }

  /** Exactly the octets written for a 32-bit epoch and a full-width public value are read as those. */
  lemma ParseKexExact(v: Bytes, epoch: nat, pub: Bytes)
    ensures ParseKex(v) == Some((epoch, pub)) <==> epoch < TWO_32 && |pub| == Dh.MODULUS_BYTES && v == KexBytes(epoch, pub)
  {
    hide BigEndian, FromBigEndian;
    Widths();
    if ParseKex(v) == Some((epoch, pub)) {
      FromBigEndianRoundTrip(v[1..5]);
      FromBigEndianRoundTrip(v[5..7]);
      assert v == [v[0]] + v[1..5] + v[5..7] + v[7..];
    } else if epoch < TWO_32 && |pub| == Dh.MODULUS_BYTES {
      hide KexBytes;
      KexBytesParts(epoch, pub);
      BigEndianRoundTrip(epoch, 4);
      BigEndianRoundTrip(|pub|, 2);
    }
  }

  /** A key-exchange payload decodes to the epoch and public value put into it. */
  lemma KexRoundTrip(epoch: nat, pub: Bytes)
    requires epoch < TWO_32 && |pub| == Dh.MODULUS_BYTES
    ensures KexOf(KexText(epoch, pub)) == Some((epoch, pub))
  {
    hide Base64.Encoded, Base64.Decoded, KexBytes, ParseKex;
    Base64.RoundTrip(KexBytes(epoch, pub));
    ParseKexExact(KexBytes(epoch, pub), epoch, pub);
  }

  /** Exactly the encodings of a 32-bit epoch and a full-width public value decode, each to what it encodes. */
  lemma KexDecodesOnly(text: string, epoch: nat, pub: Bytes)
    ensures KexOf(text) == Some((epoch, pub)) <==>
              && epoch < TWO_32 && |pub| == Dh.MODULUS_BYTES
              && Base64.Decoded(text) == Some(KexBytes(epoch, pub))
  {
    hide Base64.Decoded, KexBytes, ParseKex;
    match Base64.Decoded(text)
    case None =>
    case Some(v) => ParseKexExact(v, epoch, pub);
  }

  /** The decoded epoch is a 32-bit number and the public value has full width. */
  lemma KexDecodedRange(text: string)
    ensures KexOf(text).Some? ==> KexOf(text).value.0 < TWO_32 && |KexOf(text).value.1| == Dh.MODULUS_BYTES
  {
    hide KexOf;
    if KexOf(text).Some? {
      KexDecodesOnly(text, KexOf(text).value.0, KexOf(text).value.1);
    }
  }

  /** A chat payload [epoch:4][ciphertext][tag], or text that does not decode to one. */
  datatype ChatPayload = Undecodable | Chat(epoch: nat, ct: Cipher)

  function ChatText(codec: Codec, m: ChatPayload): string
    requires m.Chat?
  {
    Base64.Encoded(BigEndian(m.epoch, 4) + codec.write(m.ct))
  }

  function ChatOf(codec: Codec, text: string): ChatPayload {
    match Base64.Decoded(text)
    case None => Undecodable
    case Some(v) =>
      if |v| < 4 + TAG_LEN then Undecodable else Chat(FromBigEndian(v[..4]), codec.read(v[4..]))
  }

  /** A chat payload decodes to the epoch and ciphertext put into it. */
  lemma ChatRoundTrip(codec: Codec, m: ChatPayload)
    requires m.Chat? && m.epoch < TWO_32 && Carries(codec, m.ct) && m.ct.Length() >= TAG_LEN
    ensures ChatOf(codec, ChatText(codec, m)) == m
  {
    var v := BigEndian(m.epoch, 4) + codec.write(m.ct);
    Base64.RoundTrip(v);
    Widths();
    BigEndianRoundTrip(m.epoch, 4);
    assert v[..4] == BigEndian(m.epoch, 4) && v[4..] == codec.write(m.ct);
  }

  // -------------------------------------------------------------------- state

  datatype Epoch = Epoch(n: nat, kA2b: Key, kB2a: Key, salt: Salt, fp: seq<Octet>, tx: nat, rx: nat)

  datatype State = Pending | Up

  datatype Peer = Peer(
    state: State, amA: bool, cur: Epoch, havePrev: bool, prev: Epoch,
    graceUntil: int, epochStart: int,
    rotating: bool, nextEpoch: nat, nextKp: Dh.Ephemeral, rotSent: int)

  function BlankEpoch(): Epoch {
    Epoch(0, Zeros(KEY_LEN), Zeros(KEY_LEN), Zeros(SALT_LEN), [], 0, 0)
  }

  function BlankPair(): Dh.Ephemeral {
    Dh.Ephemeral(0, [])
  }

  // Labels of the four derivations from an epoch number and a shared secret.
  const KEY_LABEL: string := "CS6008-P4-KEY|"
  const SALT_LABEL: string := "CS6008-P4-SALT|"
  const FP_LABEL: string := "CS6008-P4-FP|"

  function KeyInput(epoch: nat, direction: string, z: Bytes): seq<Octet> {
    Lits(Ascii(KEY_LABEL) + BigEndian(epoch, 4) + Ascii(direction) + z)
  }

  function SaltInput(epoch: nat, z: Bytes): seq<Octet> {
    Lits(Ascii(SALT_LABEL) + BigEndian(epoch, 4) + z)
  }

  function FpInput(epoch: nat, z: Bytes): seq<Octet> {
    Lits(Ascii(FP_LABEL) + BigEndian(epoch, 4) + z)
  }

  /** The keys, salt and fingerprint of an epoch; its counters start at zero. */
  function Derive(epoch: nat, z: Bytes): Epoch {
    Epoch(epoch,
          Sha256(KeyInput(epoch, "|a2b|", z)),
          Sha256(KeyInput(epoch, "|b2a|", z)),
          Sha256(SaltInput(epoch, z))[..SALT_LEN],
          Sha256(FpInput(epoch, z))[..8],
          0, 0)
  }

  /** The key the a-side (or the b-side) seals with. */
  function SealKey(e: Epoch, amA: bool): Key {
    if amA then e.kA2b else e.kB2a
  }

  // ----------------------------------------------------------- peer transitions

  function StartPeer(amA: bool, kp: Dh.Ephemeral, now: int): Peer {
    Peer(Pending, amA, BlankEpoch(), false, BlankEpoch(), 0, 0, true, 0, kp, now)
  }

  /** The current epoch retires, decrypt-only, and e takes its place. */
  function Retire(p: Peer, e: Epoch, now: int, grace: nat): Peer {
    p.(prev := p.cur, havePrev := true, graceUntil := now + grace * SECOND,
       cur := e, state := Up, epochStart := now, rotating := false)
  }

  /** A peer answered with epoch e: a new entry, or one that retires what it had. */
  function Renewed(p: Option<Peer>, amA: bool, e: Epoch, now: int, grace: nat): (r: Peer)
    ensures r.cur == e && r.state == Up
  {
    match p
    case None => Peer(Up, amA, e, false, BlankEpoch(), 0, now, false, 0, BlankPair(), 0)
    case Some(q) => Retire(q, e, now, grace)
  }

  datatype InitOutcome =
    | Refused(error: string, kept: Option<Peer>)
    | Ignored
    | Answered(after: Peer, pub: Bytes)

  predicate Collides(p: Option<Peer>, epoch: nat) {
    p.Some? && p.value.rotating && p.value.nextEpoch == epoch
  }

  function AnswerInit(p: Option<Peer>, amA: bool, epoch: nat, theirs: Bytes,
                      rnd: Option<nat>, now: int, grace: nat): InitOutcome
  {
    if rnd.None? then Refused("DH keygen failed", p)
    else
      match Dh.SharedSecret(rnd.value, theirs)
      case None => Refused("invalid E2E public value", p)
      case Some(z) =>
        Answered(Renewed(p, amA, Derive(epoch, z), now, grace), Dh.PublicBytes(rnd.value))
  }

  /** An INIT for `epoch` arrives: the a-side ignores it when its own INIT is out. */
  function OnInitPeer(p: Option<Peer>, amA: bool, epoch: nat, theirs: Bytes,
                      rnd: Option<nat>, now: int, grace: nat): InitOutcome
  {
    if Collides(p, epoch) then
      if amA then Ignored
      else AnswerInit(Some(p.value.(rotating := false)), amA, epoch, theirs, rnd, now, grace)
    else AnswerInit(p, amA, epoch, theirs, rnd, now, grace)
  }

  /** AnswerInit, outcome by outcome. */
  lemma AnswerCases(p: Option<Peer>, amA: bool, epoch: nat, theirs: Bytes, rnd: Option<nat>, now: int, grace: nat)
    ensures var r := AnswerInit(p, amA, epoch, theirs, rnd, now, grace);
            && (rnd.None? ==> r == Refused("DH keygen failed", p))
            && (rnd.Some? ==>
                  match Dh.SharedSecret(rnd.value, theirs)
                  case None => r == Refused("invalid E2E public value", p)
                  case Some(z) => r == Answered(Renewed(p, amA, Derive(epoch, z), now, grace), Dh.PublicBytes(rnd.value)))
  {
  }

  lemma InitCases(p: Option<Peer>, amA: bool, epoch: nat, theirs: Bytes, rnd: Option<nat>, now: int, grace: nat)
    ensures OnInitPeer(p, amA, epoch, theirs, rnd, now, grace)
         == if !(p.Some? && p.value.rotating && p.value.nextEpoch == epoch)
            then AnswerInit(p, amA, epoch, theirs, rnd, now, grace)
            else if amA then Ignored
            else AnswerInit(Some(p.value.(rotating := false)), amA, epoch, theirs, rnd, now, grace)
  {
  }

  function OnAckPeer(p: Option<Peer>, kex: Option<(nat, Bytes)>, now: int, grace: nat): Result<Peer> {
    if p.None? || !p.value.rotating then Err("unexpected E2E ack")
    else if kex.None? || kex.value.0 != p.value.nextEpoch then Err("bad E2E ack")
    else
      match Dh.SharedSecret(p.value.nextKp.priv, kex.value.1)
      case None => Err("invalid E2E public value")
      case Some(z) =>
        var e := Derive(kex.value.0, z);
        if p.value.state == Up then Ok(Retire(p.value, e, now, grace))
        else Ok(p.value.(cur := e, state := Up, epochStart := now, rotating := false))
  }

  /** Seals under the current epoch; the 64-bit counter moves by one. */
  function SealPeer(p: Option<Peer>, text: string): Result<(Peer, ChatPayload)> {
    if p.None? || p.value.state != Up then Err("no E2E session")
    else
      var e := p.value.cur;
      var ct := Sealed(SealKey(e, p.value.amA), NonceOf(e.salt, e.tx), e.tx, text);
      Ok((p.value.(cur := e.(tx := (e.tx + 1) % TWO_64)), Chat(e.n, ct)))
  }

  function Bump(e: Epoch): Epoch {
    e.(rx := (e.rx + 1) % TWO_64)
  }

  function OpenUnder(e: Epoch, amA: bool, ct: Cipher): Option<string> {
    Open(SealKey(e, !amA), NonceOf(e.salt, e.rx), e.rx, ct)
  }

  /** Opens under the current epoch, or under the previous one while its grace window lasts. */
  function OpenPeer(p: Option<Peer>, m: ChatPayload, now: int): Result<(Peer, string)> {
    if p.None? || p.value.state != Up then Err("no E2E session")
    else if m.Undecodable? then Err("bad E2E message")
    else
      var q := p.value;
      if m.epoch == q.cur.n then
        match OpenUnder(q.cur, q.amA, m.ct)
        case None => Err("E2E authentication failed")
        case Some(t) => Ok((q.(cur := Bump(q.cur)), t))
      else if q.havePrev && m.epoch == q.prev.n && now < q.graceUntil then
        match OpenUnder(q.prev, q.amA, m.ct)
        case None => Err("E2E authentication failed")
        case Some(t) => Ok((q.(prev := Bump(q.prev)), t))
      else Err("unknown or expired E2E epoch")
  }

  /** Whole seconds of a duration, truncated toward zero. */
  function WholeSeconds(d: int): int {
    if d >= 0 then d / SECOND else -(-d / SECOND)
  }

  function Expire(p: Peer, now: int): Peer {
    if p.havePrev && now >= p.graceUntil then p.(havePrev := false) else p
  }

  predicate Due(p: Peer, now: int, t: Timing) {
    && p.state == Up && !p.rotating
    && WholeSeconds(now - p.epochStart) >= if p.amA then t.rekey else t.fallback
  }

  function NextEpoch(n: nat): nat {
    (n + 1) % TWO_32
  }

  /** One pass of the timer over one peer: the INIT to send, if any. */
  function TickPeer(p: Peer, rnd: Option<nat>, now: int, t: Timing): (Peer, Option<(nat, Bytes)>) {
    var q := Expire(p, now);
    if !Due(p, now, t) || rnd.None? then (q, None)
    else
      var kp := Dh.Ephemeral(rnd.value, Dh.PublicBytes(rnd.value));
      (q.(rotating := true, nextEpoch := NextEpoch(p.cur.n), nextKp := kp, rotSent := now),
       Some((NextEpoch(p.cur.n), kp.pub)))
  }

  // -------------------------------------------------------------------- manager

  /** What is printed when an epoch is installed: its number and its fingerprint. */
  datatype Note = NoNote | Rekeyed(peer: string, epoch: nat, fp: seq<Octet>)

  datatype InitReply = InitReply(ack: string, note: Note)

  datatype Action = Action(peer: string, payload: string)

  function Lookup(ps: map<string, Peer>, name: string): Option<Peer> {
    if name in ps then Some(ps[name]) else None
  }

  function Keep(ps: map<string, Peer>, name: string, p: Option<Peer>): map<string, Peer> {
    if p.Some? then ps[name := p.value] else ps
  }

  /** One pass of the timer over every peer. */
  function TickAll(ps: map<string, Peer>, rnd: map<string, nat>, now: int, t: Timing): map<string, Peer> {
    map k | k in ps :: TickPeer(ps[k], Draw(rnd, k), now, t).0
  }

  function Draw(rnd: map<string, nat>, name: string): Option<nat> {
    if name in rnd then Some(rnd[name]) else None
  }

  /** The action that relays an INIT, if there is one. */
  function Relay(peer: string, init: Option<(nat, Bytes)>): seq<Action> {
    match init
    case None => []
    case Some((epoch, pub)) => [Action(peer, TAG_INIT + KexText(epoch, pub))]
  }

  function Actions(names: seq<string>, ps: map<string, Peer>, rnd: map<string, nat>, now: int, t: Timing): seq<Action>
    requires forall k :: k in names ==> k in ps
  {
    if names == [] then []
    else
      var k := names[|names| - 1];
      Actions(names[..|names| - 1], ps, rnd, now, t) + Relay(k, TickPeer(ps[k], Draw(rnd, k), now, t).1)
  }

  /** The INITs a pass sends, in the order of the peers' names. */
  ghost function Inits(ps: map<string, Peer>, rnd: map<string, nat>, now: int, t: Timing): seq<Action> {
    Actions(Names.Ordered(ps.Keys), ps, rnd, now, t)
  }

  /** The peers in `done` have been passed over, the others are as they were. */
  ghost predicate PassedOver(ps: map<string, Peer>, qs: map<string, Peer>, done: seq<string>,
                         rnd: map<string, nat>, now: int, t: Timing)
  {
    && qs.Keys == ps.Keys
    && (forall k :: k in done ==> k in ps)
    && forall k :: k in ps ==> qs[k] == if k in done then TickPeer(ps[k], Draw(rnd, k), now, t).0 else ps[k]
  }

  lemma NothingPassed(ps: map<string, Peer>, rnd: map<string, nat>, now: int, t: Timing)
    ensures PassedOver(ps, ps, [], rnd, now, t) && Actions([], ps, rnd, now, t) == []
  {
  }

  lemma OneMorePassed(ps: map<string, Peer>, qs: map<string, Peer>, done: seq<string>, k: string,
                      rnd: map<string, nat>, now: int, t: Timing)
    requires PassedOver(ps, qs, done, rnd, now, t) && k in ps && k !in done
    ensures k in qs
    ensures var (p, init) := TickPeer(qs[k], Draw(rnd, k), now, t);
            && PassedOver(ps, qs[k := p], done + [k], rnd, now, t)
            && Actions(done + [k], ps, rnd, now, t) == Actions(done, ps, rnd, now, t) + Relay(k, init)
  {
    hide TickPeer, Relay;
    assert (done + [k])[..|done|] == done;
  }

  lemma AllPassed(ps: map<string, Peer>, qs: map<string, Peer>, done: seq<string>,
                  rnd: map<string, nat>, now: int, t: Timing)
    requires PassedOver(ps, qs, done, rnd, now, t) && forall k :: k in ps ==> k in done
    ensures qs == TickAll(ps, rnd, now, t)
  {
    hide TickPeer;
  }

  /** Key pairs that could not be generated are passed as None (and as absent names to Tick). */
  class Manager {
    var peers: map<string, Peer>
    const timing: Timing
    const codec: Codec

    constructor (t: Timing, layout: Codec)
      ensures peers == map[] && timing == t && codec == layout
    {
      peers := map[];
      timing := t;
      codec := layout;
    }

    method Start(me: string, peer: string, rnd: Option<nat>, now: int) returns (r: Result<string>)
      modifies this
      ensures me == peer ==> r == Err("cannot E2E with yourself") && peers == old(peers)
      ensures me != peer && rnd.None? ==> r == Err("DH keygen failed") && peers == old(peers)
      ensures me != peer && rnd.Some? ==>
                var kp := Dh.Ephemeral(rnd.value, Dh.PublicBytes(rnd.value));
                && r == Ok(TAG_INIT + KexText(0, kp.pub))
                && peers == old(peers)[peer := StartPeer(Names.Less(me, peer), kp, now)]
    {
      if me == peer {
        return Err("cannot E2E with yourself");
      }
      var kp := new Dh.KeyPair();
      var ok := kp.Generate(rnd);
      if !ok {
        return Err("DH keygen failed");
      }
      var p := Peer(Pending, Names.Less(me, peer), BlankEpoch(), false, BlankEpoch(), 0, 0, false, 0, BlankPair(), 0);
      p := p.(rotating := true, nextEpoch := 0, rotSent := now, nextKp := Dh.Ephemeral(rnd.value, kp.pub));
      var text := EncodeKex(0, kp.pub);
      peers := peers[peer := p];
      r := Ok(TAG_INIT + text);
    }

    method OnInit(me: string, peer: string, payload: string, rnd: Option<nat>, now: int) returns (r: Result<InitReply>)
      modifies this
      ensures KexOf(payload).None? ==> r == Err("bad E2E init") && peers == old(peers)
      ensures KexOf(payload).Some? ==>
                var (epoch, theirs) := KexOf(payload).value;
                match OnInitPeer(old(Lookup(peers, peer)), Names.Less(me, peer), epoch, theirs, rnd, now, timing.grace)
                case Refused(e, kept) => r == Err(e) && peers == Keep(old(peers), peer, kept)
                case Ignored => r == Ok(InitReply("", NoNote)) && peers == old(peers)
                case Answered(p, pub) =>
                  && r == Ok(InitReply(TAG_ACK + KexText(epoch, pub), Rekeyed(peer, epoch, p.cur.fp)))
                  && peers == old(peers)[peer := p]
    {
      hide Derive, Dh.SharedSecret, Dh.PublicBytes, KexOf, KexText, Names.Less, OnInitPeer, Collides, AnswerInit,
           Renewed;
      var kex := DecodeKex(payload);
      KexDecodedRange(payload);
      if kex.None? {
        return Err("bad E2E init");
      }
      var (epoch, theirs) := kex.value;
      var amA := Names.Less(me, peer);
      InitCases(Lookup(peers, peer), amA, epoch, theirs, rnd, now, timing.grace);
      if peer in peers && peers[peer].rotating && peers[peer].nextEpoch == epoch {
        if amA {
          return Ok(InitReply("", NoNote));
        }
        peers := peers[peer := peers[peer].(rotating := false)];
      }
      ghost var base := Lookup(peers, peer);
      AnswerCases(base, amA, epoch, theirs, rnd, now, timing.grace);
      var kp := new Dh.KeyPair();
      var ok := kp.Generate(rnd);
      if !ok {
        return Err("DH keygen failed");
      }
      var z := kp.ComputeShared(theirs);
      if z.None? {
        return Err("invalid E2E public value");
      }
      var e := Derive(epoch, z.value);
      Renew(peer, amA, e, now);
      var text := EncodeKex(epoch, kp.pub);
      r := Ok(InitReply(TAG_ACK + text, Rekeyed(peer, epoch, e.fp)));
    }

    /** Installs e: on a new entry, or retiring the epoch the entry had. */
    method Renew(peer: string, amA: bool, e: Epoch, now: int)
      modifies this
      ensures peers == old(peers)[peer := Renewed(old(Lookup(peers, peer)), amA, e, now, timing.grace)]
    {
      if peer !in peers {
        peers := peers[peer := Peer(Up, amA, e, false, BlankEpoch(), 0, now, false, 0, BlankPair(), 0)];
        return;
      }
      var p := peers[peer];
      p := p.(prev := p.cur, havePrev := true, graceUntil := now + timing.grace * SECOND);
      p := p.(cur := e, state := Up, epochStart := now, rotating := false);
      peers := peers[peer := p];
    }

    method OnAck(peer: string, payload: string, now: int) returns (r: Result<Note>)
      modifies this
      ensures match OnAckPeer(old(Lookup(peers, peer)), KexOf(payload), now, timing.grace)
              case Err(e) => r == Err(e) && peers == old(peers)
              case Ok(p) => r == Ok(Rekeyed(peer, p.cur.n, p.cur.fp)) && peers == old(peers)[peer := p]
    {
      hide Dh.SharedSecret, Dh.PublicBytes, KexOf;
      if peer !in peers || !peers[peer].rotating {
        return Err("unexpected E2E ack");
      }
      var p := peers[peer];
      var kex := DecodeKex(payload);
      if kex.None? || kex.value.0 != p.nextEpoch {
        return Err("bad E2E ack");
      }
      var kp := new Dh.KeyPair.Moved(p.nextKp);
      var z := kp.ComputeShared(kex.value.1);
      if z.None? {
        return Err("invalid E2E public value");
      }
      var e := Derive(kex.value.0, z.value);
      if p.state == Up {
        p := p.(prev := p.cur, havePrev := true, graceUntil := now + timing.grace * SECOND);
      }
      p := p.(cur := e, state := Up, epochStart := now, rotating := false);
      peers := peers[peer := p];
      r := Ok(Rekeyed(peer, e.n, e.fp));
    }

    /** The payload to send; whoever decodes it finds the epoch and ciphertext in it. */
    method Seal(peer: string, text: string) returns (r: Result<string>)
      modifies this
      ensures match SealPeer(old(Lookup(peers, peer)), text)
              case Err(e) => r == Err(e) && peers == old(peers)
              case Ok((p, m)) => r == Ok(TAG_MSG + ChatText(codec, m)) && peers == old(peers)[peer := p]
    {
      if peer !in peers || peers[peer].state != Up {
        return Err("no E2E session");
      }
      var p := peers[peer];
      var e := p.cur;
      var ct := Sealed(SealKey(e, p.amA), NonceOf(e.salt, e.tx), e.tx, text);
      peers := peers[peer := p.(cur := e.(tx := (e.tx + 1) % TWO_64))];
      var v := BigEndian(e.n, 4);
      v := v + codec.write(ct);
      var payload := Base64.Encode(v);
      r := Ok(TAG_MSG + payload);
    }

    method Open(peer: string, payload: string, now: int) returns (r: Result<string>)
      modifies this
      ensures match OpenPeer(old(Lookup(peers, peer)), ChatOf(codec, payload), now)
              case Err(e) => r == Err(e) && peers == old(peers)
              case Ok((p, text)) => r == Ok(text) && peers == old(peers)[peer := p]
    {
      if peer !in peers || peers[peer].state != Up {
        return Err("no E2E session");
      }
      var v := Base64.Decode(payload);
      if v.None? || |v.value| < 4 + TAG_LEN {
        return Err("bad E2E message");
      }
      var epoch := FromBigEndian(v.value[..4]);
      var ct := codec.read(v.value[4..]);
      var p := peers[peer];
      if epoch == p.cur.n {
        var text := OpenUnder(p.cur, p.amA, ct);
        if text.None? {
          return Err("E2E authentication failed");
        }
        peers := peers[peer := p.(cur := Bump(p.cur))];
        r := Ok(text.value);
      } else if p.havePrev && epoch == p.prev.n && now < p.graceUntil {
        var text := OpenUnder(p.prev, p.amA, ct);
        if text.None? {
          return Err("E2E authentication failed");
        }
        peers := peers[peer := p.(prev := Bump(p.prev))];
        r := Ok(text.value);
      } else {
        r := Err("unknown or expired E2E epoch");
      }
    }

    /** The body of the timer's loop: one peer. */
    method TickOne(k: string, rnd: Option<nat>, now: int) returns (out: seq<Action>)
      requires k in peers
      modifies this
      ensures var (p, init) := TickPeer(old(peers[k]), rnd, now, timing);
              peers == old(peers)[k := p] && out == Relay(k, init)
    {
      hide Dh.PublicBytes, KexText;
      var p := peers[k];
      out := [];
      if p.havePrev && now >= p.graceUntil {
        p := p.(havePrev := false);
      }
      if p.state == Up && !p.rotating {
        var due := if p.amA then timing.rekey else timing.fallback;
        if WholeSeconds(now - p.epochStart) >= due {
          var kp := new Dh.KeyPair();
          var ok := kp.Generate(rnd);
          if ok {
            p := p.(rotating := true, nextEpoch := NextEpoch(p.cur.n), nextKp := Dh.Ephemeral(rnd.value, kp.pub),
                    rotSent := now);
            var text := EncodeKex(p.nextEpoch, kp.pub);
            out := [Action(k, TAG_INIT + text)];
          }
        }
      }
      peers := peers[k := p];
    }

    /** The timer: INITs that are due, in the order of the peers' names. */
    method Tick(rnd: map<string, nat>, now: int) returns (out: seq<Action>)
      modifies this
      ensures peers == TickAll(old(peers), rnd, now, timing)
      ensures out == Inits(old(peers), rnd, now, timing)
    {
      hide TickPeer, Names.Ascending, Names.Precedes, PassedOver, Actions, Relay;
      ghost var before := peers;
      var names := Names.Sorted(peers.Keys);
      assert forall k :: k in names <==> k in Names.Elements(names);
      out := [];
      var i := 0;
      NothingPassed(before, rnd, now, timing);
      while i < |names|
        invariant 0 <= i <= |names|
        invariant PassedOver(before, peers, names[..i], rnd, now, timing)
        invariant out == Actions(names[..i], before, rnd, now, timing)
      {
        var k := names[i];
        Names.AscendingDistinct(names, i);
        assert names[..i + 1] == names[..i] + [k];
        OneMorePassed(before, peers, names[..i], k, rnd, now, timing);
        var sent := TickOne(k, Draw(rnd, k), now);
        out := out + sent;
        i := i + 1;
      }
      assert names[..i] == names;
      AllPassed(before, peers, names, rnd, now, timing);
    }

    predicate Established(peer: string)
      reads this
    {
      peer in peers && peers[peer].state == Up
    }
  }
}
