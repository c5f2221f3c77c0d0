/**
 * Two end-to-end peers connected by a FIFO, lossless channel in each
 * direction. Every Manager call and the sending of its payload are one step;
 * starts, timer passes, deliveries, messages and the passage of time interleave
 * in any order.
 */
module Rotation {
  import opened Wrappers
  import opened ByteStrings
  import opened Crypto
  import opened E2e
  import Dh

  datatype Msg = Init(epoch: nat, pub: Bytes) | Ack(epoch: nat, pub: Bytes) | Text(m: ChatPayload)

  /** A message in flight, with two notes no receiver sees: the unbounded epoch index and the sending time. */
  datatype Flight = Flight(msg: Msg, idx: int, at: int)

  /**
   * One client's view of the other, and what it has sent but the other has not
   * received. History: `idx` counts the epochs installed here (-1 for none),
   * `sent` and `got` are the texts sealed and opened here, `failed` and
   * `refused` count handler errors and messages that did not open.
   */
  datatype Node = Node(peer: Option<Peer>, out: seq<Flight>, idx: int,
                       sent: seq<string>, got: seq<string>, failed: nat, refused: nat)

  /** Side a is the smaller username. `secrets[i]` is the shared secret of epoch index i. */
  datatype Sys = Sys(a: Node, b: Node, secrets: seq<Bytes>, now: int)

  datatype Side = A | B

  datatype Step =
    | Start(side: Side, x: nat)
    | Tick(side: Side, rnd: Option<nat>)
    | Deliver(side: Side, x: nat)
    | Say(side: Side, text: string)
    | Wait(d: nat)

  function U32(i: int): nat {
    i % TWO_32
  }

  function Other(side: Side): Side {
    if side == A then B else A
  }

  function At(s: Sys, side: Side): Node {
    if side == A then s.a else s.b
  }

  function Put(s: Sys, side: Side, n: Node): Sys {
    if side == A then s.(a := n) else s.(b := n)
  }

  function Initial(): Sys {
    var n := Node(None, [], -1, [], [], 0, 0);
    Sys(n, n, [], 0)
  }

  // ---------------------------------------------------------------- transitions

  function Started(n: Node, amA: bool, x: nat, now: int): Node {
    var kp := Dh.Ephemeral(x, Dh.PublicBytes(x));
    n.(peer := Some(StartPeer(amA, kp, now)), out := n.out + [Flight(Init(0, kp.pub), n.idx + 1, now)])
  }

  function Ticked(n: Node, rnd: Option<nat>, now: int, t: Timing): Node {
    if n.peer.None? then n
    else
      match TickPeer(n.peer.value, rnd, now, t)
      case (p, None) => n.(peer := Some(p))
      case (p, Some((epoch, pub))) =>
        n.(peer := Some(p), out := n.out + [Flight(Init(epoch, pub), n.idx + 1, now)])
  }

  function Said(n: Node, text: string, now: int): Node {
    match SealPeer(n.peer, text)
    case Err(_) => n
    case Ok((p, m)) => n.(peer := Some(p), out := n.out + [Flight(Text(m), n.idx, now)], sent := n.sent + [text])
  }

  /** The receiver's handler for one message; the answer, if any, goes out in the same step. */
  function Received(n: Node, amA: bool, msg: Msg, x: nat, now: int, t: Timing): Node {
    match msg
    case Init(epoch, pub) =>
      (match OnInitPeer(n.peer, amA, epoch, pub, Some(x), now, t.grace)
       case Refused(_, kept) => n.(peer := kept, failed := n.failed + 1)
       case Ignored => n
       case Answered(p, mine) =>
         n.(peer := Some(p), idx := n.idx + 1, out := n.out + [Flight(Ack(epoch, mine), n.idx + 1, now)]))
    case Ack(epoch, pub) =>
      (match OnAckPeer(n.peer, Some((epoch, pub)), now, t.grace)
       case Err(_) => n.(failed := n.failed + 1)
       case Ok(p) => n.(peer := Some(p), idx := n.idx + 1))
    case Text(m) =>
      match OpenPeer(n.peer, m, now)
      case Err(_) => n.(refused := n.refused + 1)
      case Ok((p, text)) => n.(peer := Some(p), got := n.got + [text])
  }

  /** History: the first side to install an epoch fixes its secret. */
  function Recorded(secrets: seq<Bytes>, idx: int, msg: Msg, x: nat): seq<Bytes> {
    if idx == |secrets| && !msg.Text? && Dh.SharedSecret(x, msg.pub).Some?
    then secrets + [Dh.SharedSecret(x, msg.pub).value]
    else secrets
  }

  function Next(s: Sys, step: Step, t: Timing): Sys {
    match step
    case Start(side, x) => Put(s, side, Started(At(s, side), side == A, x, s.now))
    case Tick(side, rnd) => Put(s, side, Ticked(At(s, side), rnd, s.now, t))
    case Deliver(side, x) =>
      var from := At(s, Other(side));
      if from.out == [] then s
      else
        var n := Received(At(s, side), side == A, from.out[0].msg, x, s.now, t);
        Put(Put(s, Other(side), from.(out := from.out[1..])), side, n)
        .(secrets := Recorded(s.secrets, n.idx, from.out[0].msg, x))
    case Say(side, text) => Put(s, side, Said(At(s, side), text, s.now))
    case Wait(d) => s.(now := s.now + d)
  }

  /** A generated exponent whose public value passes the peer's range check. */
  predicate Honest(x: nat) {
    Dh.ValidPublic(Dh.PublicBytes(x))
  }

  /** `start` is called only without an entry for the peer; generated pairs are honest. */
  predicate Legal(s: Sys, step: Step) {
    match step
    case Start(side, x) => At(s, side).peer.None? && Honest(x)
    case Tick(side, rnd) => rnd.Some? ==> Honest(rnd.value)
    case Deliver(side, x) => At(s, Other(side)).out != [] && Honest(x)
    case Say(_, _) => true
    case Wait(_) => true
  }

  // ------------------------------------------------------------ channel shapes

  /** The key-exchange messages of a channel, in order. */
  function Kex(q: seq<Flight>): seq<Flight> {
    if q == [] then []
    else if q[0].msg.Text? then Kex(q[1..])
    else [q[0]] + Kex(q[1..])
  }

  lemma {:induction false} KexAppend(q: seq<Flight>, f: Flight)
    ensures Kex(q + [f]) == Kex(q) + (if f.msg.Text? then [] else [f])
  {
    if q == [] {
    } else {
      assert (q + [f])[1..] == q[1..] + [f];
      KexAppend(q[1..], f);
    }
  }

  predicate Rotating(n: Node) {
    n.peer.Some? && n.peer.value.rotating
  }

  /** e is epoch index i, whatever its counters. */
  predicate IsEpoch(e: Epoch, i: int, secrets: seq<Bytes>)
    requires 0 <= i < |secrets|
  {
    e.(tx := 0, rx := 0) == Derive(U32(i), secrets[i])
  }

  predicate Settled(n: Node, amA: bool, secrets: seq<Bytes>) {
    && -1 <= n.idx < |secrets|
    && n.failed == 0
    && (n.peer.None? ==> n.idx == -1)
    && (n.peer.Some? ==>
          var p := n.peer.value;
          && p.amA == amA
          && (n.idx == -1 ==> p.state == Pending && p.rotating)
          && (n.idx >= 0 ==> p.state == Up && IsEpoch(p.cur, n.idx, secrets))
          && (n.idx >= 1 ==> IsEpoch(p.prev, n.idx - 1, secrets))
          && (p.rotating ==>
                && p.nextEpoch == U32(n.idx + 1)
                && p.nextKp.pub == Dh.PublicBytes(p.nextKp.priv)
                && Honest(p.nextKp.priv)))
  }

  predicate IsInitOf(f: Flight, n: Node) {
    Rotating(n) && f.idx == n.idx + 1 && f.msg == Init(U32(n.idx + 1), n.peer.value.nextKp.pub)
  }

  predicate Level(x: Node, y: Node, secrets: seq<Bytes>) {
    x.idx == y.idx == |secrets| - 1
  }

  /** Nothing is under way. */
  predicate Idle(x: Node, y: Node, secrets: seq<Bytes>) {
    Level(x, y, secrets) && !Rotating(x) && !Rotating(y) && Kex(x.out) == [] && Kex(y.out) == []
  }

  /** x has asked for the next epoch and y has not heard yet. */
  predicate Asked(x: Node, y: Node, secrets: seq<Bytes>) {
    && Level(x, y, secrets) && !Rotating(y) && Kex(y.out) == []
    && |Kex(x.out)| == 1 && IsInitOf(Kex(x.out)[0], x)
  }

  /** Both have asked, and neither has heard the other. */
  predicate Crossed(x: Node, y: Node, secrets: seq<Bytes>) {
    && Level(x, y, secrets)
    && |Kex(x.out)| == 1 && IsInitOf(Kex(x.out)[0], x)
    && |Kex(y.out)| == 1 && IsInitOf(Kex(y.out)[0], y)
  }

  /** Both have asked; a has ignored b's INIT, its own is still on the way. */
  predicate Won(a: Node, b: Node, secrets: seq<Bytes>) {
    && Level(a, b, secrets) && Rotating(b) && Kex(b.out) == []
    && |Kex(a.out)| == 1 && IsInitOf(Kex(a.out)[0], a)
  }

  predicate IsAnswer(f: Flight, x: Node, y: Node, secrets: seq<Bytes>) {
    && Rotating(x) && y.peer.Some? && 0 <= y.idx < |secrets|
    && f.msg.Ack? && f.msg.epoch == U32(y.idx) && f.idx == y.idx && f.at == y.peer.value.epochStart
    && Dh.SharedSecret(x.peer.value.nextKp.priv, f.msg.pub) == Some(secrets[y.idx])
  }

  /**
   * y has answered x and is one epoch ahead: its channel holds, in order, the
   * INIT y gave up when it lost a collision (only if x is the a-side), the ACK,
   * and the INIT of the following rotation if y has already begun it.
   */
  predicate Ahead(x: Node, y: Node, xIsA: bool, secrets: seq<Bytes>) {
    var k := Kex(y.out);
    var stale := if k != [] && k[0].msg.Init? then 1 else 0;
    && x.idx + 1 == y.idx == |secrets| - 1
    && Kex(x.out) == []
    && |k| == stale + 1 + (if Rotating(y) then 1 else 0)
    && (stale == 1 ==> xIsA && k[0].msg.epoch == U32(x.idx + 1) && k[0].idx == x.idx + 1)
    && IsAnswer(k[stale], x, y, secrets)
    && (Rotating(y) ==> IsInitOf(k[stale + 1], y))
  }

  /** One of the shapes holds, seen from x. */
  predicate Shaped(x: Node, y: Node, xIsA: bool, secrets: seq<Bytes>) {
    || Idle(x, y, secrets)
    || Asked(x, y, secrets)
    || Asked(y, x, secrets)
    || Crossed(x, y, secrets)
    || (xIsA && Won(x, y, secrets))
    || (!xIsA && Won(y, x, secrets))
    || Ahead(x, y, xIsA, secrets)
    || Ahead(y, x, !xIsA, secrets)
  }

  predicate Sound(n: Node, y: Node, amA: bool, secrets: seq<Bytes>) {
    Settled(n, amA, secrets) && Settled(y, !amA, secrets) && Shaped(n, y, amA, secrets)
  }

  predicate Inv(s: Sys) {
    Sound(s.a, s.b, true, s.secrets)
  }

  function Uncounted(e: Epoch): Epoch {
    e.(tx := 0, rx := 0)
  }

  /** m differs from n in message counters and chat traffic only. */
  predicate SameStanding(n: Node, m: Node) {
    && m.idx == n.idx && m.failed == n.failed && Kex(m.out) == Kex(n.out)
    && (m.peer.Some? <==> n.peer.Some?)
    && (n.peer.Some? ==>
          var p, q := n.peer.value, m.peer.value;
          && Uncounted(q.cur) == Uncounted(p.cur) && Uncounted(q.prev) == Uncounted(p.prev)
          && q.state == p.state && q.amA == p.amA && q.epochStart == p.epochStart
          && q.rotating == p.rotating && q.nextEpoch == p.nextEpoch && q.nextKp == p.nextKp)
  }

  lemma StandingKeeps(n: Node, m: Node, y: Node, z: Node, amA: bool, secrets: seq<Bytes>)
    requires Settled(n, amA, secrets) && Settled(y, !amA, secrets) && Shaped(n, y, amA, secrets)
    requires SameStanding(n, m) && SameStanding(y, z)
    ensures Settled(m, amA, secrets) && Settled(z, !amA, secrets) && Shaped(m, z, amA, secrets)
  {
    hide Derive, Dh.SharedSecret, Dh.PublicBytes, Dh.ValidPublic, Kex;
  }

  lemma SeenFromEitherSide(s: Sys, side: Side)
    ensures Inv(s) <==> Sound(At(s, side), At(s, Other(side)), side == A, s.secrets)
  {
  }

  lemma DeriveHead(n: nat, z: Bytes)
    ensures Derive(n, z).n == n && Derive(n, z).tx == Derive(n, z).rx == 0
  {
  }

  /** The 32-bit epoch numbers of indices at most two apart differ; the successor is the next index's. */
  lemma U32Facts(i: int)
    ensures NextEpoch(U32(i)) == U32(i + 1)
    ensures U32(i) != U32(i + 1) && U32(i) != U32(i + 2) && U32(i + 1) != U32(i + 2)
    ensures U32(0) == 0
  {
  }

  // -------------------------------------------------- every step keeps the shapes

  lemma StartKeeps(n: Node, y: Node, amA: bool, x: nat, now: int, secrets: seq<Bytes>)
    requires Sound(n, y, amA, secrets) && n.peer.None? && Honest(x)
    ensures Sound(Started(n, amA, x, now), y, amA, secrets)
  {
    hide Derive, Dh.SharedSecret, Dh.PublicBytes, Dh.ValidPublic;
    KexAppend(n.out, Flight(Init(0, Dh.PublicBytes(x)), n.idx + 1, now));
  }

  /** A timer pass sends an INIT and begins waiting, or changes nothing that matters here. */
  lemma Ticking(n: Node, amA: bool, rnd: Option<nat>, now: int, t: Timing, secrets: seq<Bytes>)
    requires Settled(n, amA, secrets) && (rnd.Some? ==> Honest(rnd.value))
    ensures var m := Ticked(n, rnd, now, t);
            || (m.out == n.out && SameStanding(n, m))
            || (&& !Rotating(n) && Settled(m, amA, secrets) && m.idx == n.idx >= 0
                && m.peer.Some? && n.peer.Some? && m.peer.value.epochStart == n.peer.value.epochStart
                && |m.out| > 0 && m.out == n.out + [m.out[|m.out| - 1]] && IsInitOf(m.out[|m.out| - 1], m))
  {
    hide Derive, Dh.SharedSecret, Dh.PublicBytes, Dh.ValidPublic, Kex;
    U32Facts(n.idx);
    if n.idx >= 0 {
      DeriveHead(U32(n.idx), secrets[n.idx]);
    }
    var m := Ticked(n, rnd, now, t);
    if m.out != n.out {
      assert m.out[|m.out| - 1] == Flight(m.out[|m.out| - 1].msg, n.idx + 1, now);
    }
  }

  lemma TickKeeps(n: Node, y: Node, amA: bool, rnd: Option<nat>, now: int, t: Timing, secrets: seq<Bytes>)
    requires Sound(n, y, amA, secrets) && (rnd.Some? ==> Honest(rnd.value))
    ensures Sound(Ticked(n, rnd, now, t), y, amA, secrets)
  {
    hide Derive, Dh.SharedSecret, Dh.PublicBytes, Dh.ValidPublic, Ticked, Settled, SameStanding, Kex;
    Ticking(n, amA, rnd, now, t, secrets);
    var m := Ticked(n, rnd, now, t);
    if SameStanding(n, m) {
      SameStandingSelf(y);
      StandingKeeps(n, m, y, y, amA, secrets);
    } else {
      KexAppend(n.out, m.out[|m.out| - 1]);
    }
  }

  lemma SameStandingSelf(n: Node)
    ensures SameStanding(n, n)
  {
  }

  lemma SayKeeps(n: Node, y: Node, amA: bool, text: string, now: int, secrets: seq<Bytes>)
    requires Sound(n, y, amA, secrets)
    ensures Sound(Said(n, text, now), y, amA, secrets)
  {
    var m := Said(n, text, now);
    if |m.out| > |n.out| {
      KexAppend(n.out, m.out[|n.out|]);
    }
    StandingKeeps(n, m, y, y, amA, secrets);
  }

  /** The receiver n handles the head of y's channel and everything stays sound. */
  predicate ReceivedSoundly(n: Node, y: Node, amA: bool, x: nat, now: int, t: Timing, secrets: seq<Bytes>)
    requires y.out != []
  {
    var m := Received(n, amA, y.out[0].msg, x, now, t);
    Sound(m, y.(out := y.out[1..]), amA, Recorded(secrets, m.idx, y.out[0].msg, x))
  }

  /** The a-side ignores b's INIT when its own is out or already answered. */
  lemma InitIgnored(n: Node, y: Node, amA: bool, x: nat, now: int, t: Timing, secrets: seq<Bytes>)
    requires Sound(n, y, amA, secrets)
    requires y.out != [] && y.out[0].msg.Init?
    requires Ahead(n, y, amA, secrets) || (amA && Crossed(n, y, secrets))
    ensures Received(n, amA, y.out[0].msg, x, now, t) == n
    ensures ReceivedSoundly(n, y, amA, x, now, t, secrets)
  {
    hide Derive, Dh.SharedSecret, Dh.PublicBytes, Dh.ValidPublic;
    var f := y.out[0];
    U32Facts(n.idx);
    assert Kex(y.out) == [f] + Kex(y.out[1..]);
    assert Received(n, amA, f.msg, x, now, t) == n;
    if Ahead(n, y, amA, secrets) {
      assert Ahead(n, y.(out := y.out[1..]), amA, secrets);
    } else {
      assert Won(n, y.(out := y.out[1..]), secrets);
    }
  }

  /** An INIT that is going to be answered: y's only key-exchange message, for the next epoch. */
  predicate Answerable(n: Node, y: Node, amA: bool, secrets: seq<Bytes>)
    requires y.out != []
  {
    && Level(n, y, secrets) && !(amA && Rotating(n))
    && IsInitOf(y.out[0], y) && Kex(y.out[1..]) == []
    && y.peer.value.nextKp.pub == Dh.PublicBytes(y.peer.value.nextKp.priv) && Honest(y.peer.value.nextKp.priv)
    && (Kex(n.out) == [] || (!amA && |Kex(n.out)| == 1 && IsInitOf(Kex(n.out)[0], n)))
  }

  lemma InitShapes(n: Node, y: Node, amA: bool, secrets: seq<Bytes>)
    requires Sound(n, y, amA, secrets)
    requires y.out != [] && y.out[0].msg.Init?
    requires !Ahead(n, y, amA, secrets) && !(amA && Crossed(n, y, secrets))
    ensures Answerable(n, y, amA, secrets)
  {
    hide Derive, Dh.SharedSecret, Dh.PublicBytes, Dh.ValidPublic;
    assert Kex(y.out) == [y.out[0]] + Kex(y.out[1..]);
  }

  /** What answering an INIT does to the receiver. */
  lemma Answering(n: Node, amA: bool, epoch: nat, theirs: Bytes, x: nat, now: int, t: Timing, secrets: seq<Bytes>)
    requires Settled(n, amA, secrets) && !(amA && Rotating(n)) && Dh.SharedSecret(x, theirs).Some?
    ensures var m := Received(n, amA, Init(epoch, theirs), x, now, t);
            && m.idx == n.idx + 1 && m.failed == n.failed
            && m.out == n.out + [Flight(Ack(epoch, Dh.PublicBytes(x)), n.idx + 1, now)]
            && m.peer.Some?
            && var p := m.peer.value;
               && p.amA == amA && p.state == Up && !p.rotating && p.epochStart == now
               && p.cur == Derive(epoch, Dh.SharedSecret(x, theirs).value)
               && (n.idx >= 0 ==> n.peer.Some? && p.prev == n.peer.value.cur)
  {
    hide Derive, Dh.SharedSecret, Dh.PublicBytes, Dh.ValidPublic;
  }

  lemma MoreSettled(n: Node, amA: bool, secrets: seq<Bytes>, z: Bytes)
    requires Settled(n, amA, secrets)
    ensures Settled(n, amA, secrets + [z])
  {
    hide Derive, Dh.PublicBytes, Dh.ValidPublic;
  }

  /** An INIT is answered, and its receiver moves one epoch ahead. */
  lemma AnswerKeeps(n: Node, y: Node, amA: bool, x: nat, now: int, t: Timing, secrets: seq<Bytes>)
    requires Settled(n, amA, secrets) && Settled(y, !amA, secrets) && Honest(x)
    requires y.out != [] && Answerable(n, y, amA, secrets)
    ensures var m := Received(n, amA, y.out[0].msg, x, now, t);
            var secrets' := Recorded(secrets, m.idx, y.out[0].msg, x);
            && Settled(m, amA, secrets')
            && Settled(y.(out := y.out[1..]), !amA, secrets')
            && Ahead(y.(out := y.out[1..]), m, !amA, secrets')
  {
    hide Derive, Dh.SharedSecret, Dh.PublicBytes, Dh.ValidPublic, Kex, Received;
    var f := y.out[0];
    var ack := Flight(Ack(f.msg.epoch, Dh.PublicBytes(x)), n.idx + 1, now);
    U32Facts(n.idx);
    KexAppend(n.out, ack);
    Dh.Agreement(x, y.peer.value.nextKp.priv);
    Answering(n, amA, f.msg.epoch, f.msg.pub, x, now, t, secrets);
    var z := Dh.SharedSecret(x, f.msg.pub).value;
    MoreSettled(n, amA, secrets, z);
    MoreSettled(y.(out := y.out[1..]), !amA, secrets, z);
    DeriveHead(U32(n.idx + 1), z);
  }

  lemma InitAnswered(n: Node, y: Node, amA: bool, x: nat, now: int, t: Timing, secrets: seq<Bytes>)
    requires Sound(n, y, amA, secrets) && Honest(x)
    requires y.out != [] && y.out[0].msg.Init?
    requires !Ahead(n, y, amA, secrets) && !(amA && Crossed(n, y, secrets))
    ensures Received(n, amA, y.out[0].msg, x, now, t).idx == n.idx + 1 == y.idx + 1
    ensures ReceivedSoundly(n, y, amA, x, now, t, secrets)
  {
    InitShapes(n, y, amA, secrets);
    AnswerKeeps(n, y, amA, x, now, t, secrets);
    hide Settled, Received, Recorded, Ahead, Asked, Crossed, Won, Idle, Answerable;
  }

  /** An ACK completes the epoch its receiver is waiting for, with the answerer's secret. */
  lemma AckKeeps(n: Node, y: Node, amA: bool, x: nat, now: int, t: Timing, secrets: seq<Bytes>)
    requires Sound(n, y, amA, secrets)
    requires y.out != [] && y.out[0].msg.Ack?
    ensures Received(n, amA, y.out[0].msg, x, now, t).idx == n.idx + 1 == y.idx
    ensures ReceivedSoundly(n, y, amA, x, now, t, secrets)
  {
    hide Derive, Dh.SharedSecret, Dh.PublicBytes, Dh.ValidPublic;
    var f := y.out[0];
    U32Facts(n.idx);
    assert Kex(y.out) == [f] + Kex(y.out[1..]);
    assert Ahead(n, y, amA, secrets);
    var m := Received(n, amA, f.msg, x, now, t);
    DeriveHead(U32(y.idx), secrets[y.idx]);
    if Rotating(y) {
      assert Asked(y.(out := y.out[1..]), m, secrets);
    } else {
      assert Idle(m, y.(out := y.out[1..]), secrets);
    }
  }

  lemma TextKeeps(n: Node, y: Node, amA: bool, x: nat, now: int, t: Timing, secrets: seq<Bytes>)
    requires Sound(n, y, amA, secrets)
    requires y.out != [] && y.out[0].msg.Text?
    ensures ReceivedSoundly(n, y, amA, x, now, t, secrets)
  {
    OpenStanding(n, amA, y.out[0].msg, x, now, t);
    StandingKeeps(n, Received(n, amA, y.out[0].msg, x, now, t), y, y.(out := y.out[1..]), amA, secrets);
  }

  lemma OpenStanding(n: Node, amA: bool, msg: Msg, x: nat, now: int, t: Timing)
    requires msg.Text?
    ensures SameStanding(n, Received(n, amA, msg, x, now, t))
  {
    hide OpenUnder;
  }

  lemma ReceiveKeeps(n: Node, y: Node, amA: bool, x: nat, now: int, t: Timing, secrets: seq<Bytes>)
    requires Sound(n, y, amA, secrets) && y.out != [] && Honest(x)
    ensures ReceivedSoundly(n, y, amA, x, now, t, secrets)
  {
    hide *;
    match y.out[0].msg
    case Init(_, _) =>
      if Ahead(n, y, amA, secrets) || (amA && Crossed(n, y, secrets)) {
        InitIgnored(n, y, amA, x, now, t, secrets);
      } else {
        InitAnswered(n, y, amA, x, now, t, secrets);
      }
    case Ack(_, _) => AckKeeps(n, y, amA, x, now, t, secrets);
    case Text(_) => TextKeeps(n, y, amA, x, now, t, secrets);
  }

  lemma StepKeeps(s: Sys, step: Step, t: Timing)
    requires Inv(s) && Legal(s, step)
    ensures Inv(Next(s, step, t))
  {
    hide Sound, Started, Ticked, Said, Received, Recorded, Honest;
    var side := if step.Wait? then A else step.side;
    var n, y := At(s, side), At(s, Other(side));
    SeenFromEitherSide(s, side);
    SeenFromEitherSide(Next(s, step, t), side);
    match step
    case Start(_, x) => StartKeeps(n, y, side == A, x, s.now, s.secrets);
    case Tick(_, rnd) => TickKeeps(n, y, side == A, rnd, s.now, t, s.secrets);
    case Deliver(_, x) => ReceiveKeeps(n, y, side == A, x, s.now, t, s.secrets);
    case Say(_, text) => SayKeeps(n, y, side == A, text, s.now, s.secrets);
    case Wait(_) =>
  }

  // -------------------------------------------------------------------- all runs

  function Run(s: Sys, steps: seq<Step>, t: Timing): Sys
    decreases |steps|
  {
    if steps == [] then s else Run(Next(s, steps[0], t), steps[1..], t)
  }

  predicate LegalRun(s: Sys, steps: seq<Step>, t: Timing)
    decreases |steps|
  {
    steps == [] || (Legal(s, steps[0]) && LegalRun(Next(s, steps[0], t), steps[1..], t))
  }

  lemma {:induction false} RunKeeps(s: Sys, steps: seq<Step>, t: Timing)
    requires Inv(s) && LegalRun(s, steps, t)
    ensures Inv(Run(s, steps, t))
    decreases |steps|
  {
    hide Inv, Next, Legal;
    if steps == [] {
    } else {
      StepKeeps(s, steps[0], t);
      RunKeeps(Next(s, steps[0], t), steps[1..], t);
    }
  }

  /** The two sides agree: on their keys when level, and on the retiring keys when one is ahead. */
  predicate Agreed(s: Sys) {
    && -1 <= s.a.idx - s.b.idx <= 1
    && (s.a.idx >= 0 ==> s.a.peer.Some? && s.a.peer.value.cur.n == U32(s.a.idx))
    && (s.b.idx >= 0 ==> s.b.peer.Some? && s.b.peer.value.cur.n == U32(s.b.idx))
    && (s.a.idx == s.b.idx >= 0 ==> Uncounted(s.a.peer.value.cur) == Uncounted(s.b.peer.value.cur))
    && (s.b.idx == s.a.idx + 1 >= 1 ==> Uncounted(s.b.peer.value.prev) == Uncounted(s.a.peer.value.cur))
    && (s.a.idx == s.b.idx + 1 >= 1 ==> Uncounted(s.a.peer.value.prev) == Uncounted(s.b.peer.value.cur))
  }

  lemma InvAgrees(s: Sys)
    requires Inv(s)
    ensures Agreed(s)
  {
    hide Derive, Dh.SharedSecret, Dh.PublicBytes, Dh.ValidPublic, Kex;
    forall i | 0 <= i < |s.secrets| ensures Derive(U32(i), s.secrets[i]).n == U32(i) {
      DeriveHead(U32(i), s.secrets[i]);
    }
  }

  /**
   * Whatever the interleaving, the two sides are never more than one epoch
   * apart, agree on the keys of every epoch both hold, and no handler fails.
   */
  lemma Agreement(steps: seq<Step>, t: Timing)
    requires LegalRun(Initial(), steps, t)
    ensures var s := Run(Initial(), steps, t);
            Agreed(s) && s.a.failed == s.b.failed == 0
  {
    assert Inv(Initial());
    RunKeeps(Initial(), steps, t);
    InvAgrees(Run(Initial(), steps, t));
  }

  // ------------------------------------------------------------------ quiescence

  function Weight(q: seq<Flight>): nat {
    if q == [] then 0 else (if q[0].msg.Init? then 2 else 1) + Weight(q[1..])
  }

  lemma {:induction false} WeightAppend(q: seq<Flight>, f: Flight)
    ensures Weight(q + [f]) == Weight(q) + (if f.msg.Init? then 2 else 1)
  {
    if q == [] {
    } else {
      assert (q + [f])[1..] == q[1..] + [f];
      WeightAppend(q[1..], f);
    }
  }

  predicate OnlyDeliveries(steps: seq<Step>) {
    forall i :: 0 <= i < |steps| ==> steps[i].Deliver?
  }

  lemma DeliveryLightens(s: Sys, step: Step, t: Timing)
    requires step.Deliver? && At(s, Other(step.side)).out != []
    ensures Weight(Next(s, step, t).a.out) + Weight(Next(s, step, t).b.out) < Weight(s.a.out) + Weight(s.b.out)
  {
    hide Derive, Dh.SharedSecret, Dh.PublicBytes, Dh.ValidPublic, OpenPeer, OnAckPeer, OnInitPeer;
    var n, f := At(s, step.side), At(s, Other(step.side)).out[0];
    var m := Received(n, step.side == A, f.msg, step.x, s.now, t);
    if m.out != n.out {
      WeightAppend(n.out, m.out[|n.out|]);
    }
  }

  /** Both sides hold the same epoch and keys and none is being negotiated. */
  predicate Quiet(s: Sys) {
    && s.a.idx == s.b.idx && !Rotating(s.a) && !Rotating(s.b)
    && (s.a.idx >= 0 ==> s.a.peer.Some? && s.b.peer.Some?
                         && Uncounted(s.a.peer.value.cur) == Uncounted(s.b.peer.value.cur))
  }

  /**
   * Once starts, timers and messages stop, deliveries end after at most the
   * combined weight of the channels, can continue until both are empty, and
   * then leave both sides on the same epoch and keys: the furthest epoch that
   * either side had reached or asked for.
   */
  lemma {:induction false} Quiescence(s: Sys, steps: seq<Step>, t: Timing)
    requires Inv(s) && LegalRun(s, steps, t) && OnlyDeliveries(steps)
    ensures var e := Run(s, steps, t);
            && |steps| + Weight(e.a.out) + Weight(e.b.out) <= Weight(s.a.out) + Weight(s.b.out)
            && (e.a.out == e.b.out == [] ==> Quiet(e) && e.a.idx == Furthest(s.a, s.b))
            && (forall side, x :: At(e, Other(side)).out != [] && Honest(x) ==> Legal(e, Deliver(side, x)))
    decreases |steps|
  {
    if steps == [] {
      EmptyIsQuiet(s);
      hide Inv, Quiet, Weight, Honest;
    } else {
      assert steps[0].Deliver? && OnlyDeliveries(steps[1..]);
      hide *;
      RunOne(s, steps, t);
      LegalDelivery(s, steps[0]);
      StepKeeps(s, steps[0], t);
      DeliveryLightens(s, steps[0], t);
      DeliveryReach(s, steps[0], t);
      Quiescence(Next(s, steps[0], t), steps[1..], t);
    }
  }

  lemma RunOne(s: Sys, steps: seq<Step>, t: Timing)
    requires steps != []
    ensures Run(s, steps, t) == Run(Next(s, steps[0], t), steps[1..], t)
    ensures LegalRun(s, steps, t) <==> Legal(s, steps[0]) && LegalRun(Next(s, steps[0], t), steps[1..], t)
  {
    hide Next, Legal;
  }

  /** The epoch index a side is at or is asking for. */
  function Reach(n: Node): int {
    n.idx + if Rotating(n) then 1 else 0
  }

  function Furthest(m: Node, n: Node): int {
    if Reach(m) < Reach(n) then Reach(n) else Reach(m)
  }

  /** Deliveries neither abandon a rotation nor begin one. */
  lemma ReceiveReach(n: Node, y: Node, amA: bool, x: nat, now: int, t: Timing, secrets: seq<Bytes>)
    requires Sound(n, y, amA, secrets) && y.out != [] && Honest(x)
    ensures Furthest(Received(n, amA, y.out[0].msg, x, now, t), y) == Furthest(n, y)
  {
    hide Derive, Dh.SharedSecret, Dh.PublicBytes, Dh.ValidPublic;
    var f := y.out[0];
    U32Facts(n.idx);
    match f.msg
    case Text(_) =>
      OpenStanding(n, amA, f.msg, x, now, t);
      hide Received, Shaped, Settled;
    case Ack(_, _) =>
      assert Kex(y.out) == [f] + Kex(y.out[1..]);
      assert Ahead(n, y, amA, secrets);
    case Init(_, _) =>
      assert Kex(y.out) == [f] + Kex(y.out[1..]);
      if Ahead(n, y, amA, secrets) || (amA && Crossed(n, y, secrets)) {
        assert Received(n, amA, f.msg, x, now, t) == n;
      } else {
        InitShapes(n, y, amA, secrets);
        Answering(n, amA, f.msg.epoch, f.msg.pub, x, now, t, secrets);
        hide Received, Shaped, Settled, Kex;
      }
  }

  lemma DeliveryReach(s: Sys, step: Step, t: Timing)
    requires Inv(s) && Legal(s, step) && step.Deliver?
    ensures Furthest(Next(s, step, t).a, Next(s, step, t).b) == Furthest(s.a, s.b)
  {
    hide Received, Sound, Recorded, Honest;
    SeenFromEitherSide(s, step.side);
    ReceiveReach(At(s, step.side), At(s, Other(step.side)), step.side == A, step.x, s.now, t, s.secrets);
  }

  lemma LegalDelivery(s: Sys, step: Step)
    requires step.Deliver?
    ensures Legal(s, step) <==> At(s, Other(step.side)).out != [] && Honest(step.x)
  {
  }

  lemma EmptyIsQuiet(s: Sys)
    requires Inv(s)
    ensures s.a.out == s.b.out == [] ==> Quiet(s)
  {
    InvAgrees(s);
  }

  // -------------------------------------------------------------- a first session

  lemma InitialInv()
    ensures Inv(Initial())
  {
  }

  lemma FirstSteps(asker: Side, x: nat, y: nat, t: Timing)
    requires Honest(x) && Honest(y)
    ensures var s1 := Next(Initial(), Start(asker, x), t);
            var s2 := Next(s1, Deliver(Other(asker), y), t);
            var s3 := Next(s2, Deliver(asker, y), t);
            && Legal(Initial(), Start(asker, x)) && Legal(s1, Deliver(Other(asker), y)) && Legal(s2, Deliver(asker, y))
            && s3.a.out == s3.b.out == [] && s3.a.idx == s3.b.idx == 0
  {
    hide Derive, Dh.SharedSecret, Dh.PublicBytes, Dh.ValidPublic;
  }

  /** One request and one answer establish a session from either side. */
  lemma FirstSession(asker: Side, x: nat, y: nat, t: Timing)
    requires Honest(x) && Honest(y)
    ensures var steps := [Start(asker, x), Deliver(Other(asker), y), Deliver(asker, y)];
            var s := Run(Initial(), steps, t);
            && LegalRun(Initial(), steps, t)
            && s.a.out == s.b.out == [] && s.a.idx == s.b.idx == 0 && Quiet(s)
  {
    var steps := [Start(asker, x), Deliver(Other(asker), y), Deliver(asker, y)];
    InitialInv();
    FirstSteps(asker, x, y, t);
    RunNone(Next(Next(Next(Initial(), steps[0], t), steps[1], t), steps[2], t), t);
    hide *;
    var s1 := Next(Initial(), steps[0], t);
    var s2 := Next(s1, steps[1], t);
    var s3 := Next(s2, steps[2], t);
    StepKeeps(Initial(), steps[0], t);
    StepKeeps(s1, steps[1], t);
    StepKeeps(s2, steps[2], t);
    RunOne(Initial(), steps, t);
    RunOne(s1, steps[1..], t);
    RunOne(s2, steps[2..], t);
    assert steps[1..][1..] == steps[2..] && steps[2..][1..] == [];
    EmptyIsQuiet(s3);
  }

  lemma RunNone(s: Sys, t: Timing)
    ensures Run(s, [], t) == s && LegalRun(s, [], t)
  {
  }
}
