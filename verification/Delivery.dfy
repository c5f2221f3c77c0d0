/**
 * Messages survive rotations: what one side opens is, in order and without
 * repeats, what the other side sealed, as long as no message outlives the
 * grace window of the epoch it was sealed under.
 */
module Delivery {
  import opened Wrappers
  import opened ByteStrings
  import opened Crypto
  import opened E2e
  import opened Rotation
  import Dh

  function Inc(n: nat): nat {
    (n + 1) % TWO_64
  }

  /** The k-th text sealed under epoch index i by the a-side (or the b-side). */
  function SealedAs(i: int, byA: bool, k: nat, text: string, secrets: seq<Bytes>): ChatPayload
    requires 0 <= i < |secrets|
  {
    var e := Derive(U32(i), secrets[i]);
    Chat(U32(i), Sealed(SealKey(e, byA), NonceOf(e.salt, k), k, text))
  }

  predicate IsText(f: Flight, i: int, byA: bool, k: nat, secrets: seq<Bytes>) {
    && 0 <= i < |secrets| && f.idx == i
    && f.msg.Text? && f.msg.m.Chat? && f.msg.m.ct.Sealed?
    && f.msg.m == SealedAs(i, byA, k, f.msg.m.ct.plaintext, secrets)
  }

  /**
   * The channel q will be consumed without a refusal by a receiver that is now
   * at epoch index r, expects counter c under it and d under the one before,
   * and ignores a colliding INIT if `skips`. Afterwards the receiver expects
   * exactly the counter tx that the sender, at epoch index i, uses next.
   */
  predicate Ready(q: seq<Flight>, r: int, c: nat, d: nat, skips: bool,
                  byA: bool, i: int, tx: nat, secrets: seq<Bytes>)
  {
    if q == [] then (r == i && c == tx) || (r == i + 1 && d == tx && c == 0)
    else
      var f := q[0];
      match f.msg
      case Text(_) =>
        && f.idx <= i
        && (|| (IsText(f, r, byA, c, secrets) && Ready(q[1..], r, Inc(c), d, skips, byA, i, tx, secrets))
            || (IsText(f, r - 1, byA, d, secrets) && Ready(q[1..], r, c, Inc(d), skips, byA, i, tx, secrets)))
      case Init(_, _) =>
        && f.idx == r + 1
        && (if skips then Ready(q[1..], r, c, d, skips, byA, i, tx, secrets)
            else Ready(q[1..], r + 1, 0, c, false, byA, i, tx, secrets))
      case Ack(_, _) =>
        f.idx == r + 1 && Ready(q[1..], r + 1, 0, c, false, byA, i, tx, secrets)
  }

  /** The epoch index the receiver reaches by consuming q. */
  function EndsAt(q: seq<Flight>, r: int, skips: bool): int {
    if q == [] then r
    else
      match q[0].msg
      case Text(_) => EndsAt(q[1..], r, skips)
      case Init(_, _) => if skips then EndsAt(q[1..], r, skips) else EndsAt(q[1..], r + 1, false)
      case Ack(_, _) => EndsAt(q[1..], r + 1, false)
  }

  lemma {:induction false} EndsByKex(q: seq<Flight>, r: int, skips: bool)
    ensures EndsAt(q, r, skips) == EndsAt(Kex(q), r, skips)
  {
    if q == [] {
    } else {
      assert !q[0].msg.Text? ==> Kex(q)[1..] == Kex(q[1..]);
      match q[0].msg
      case Text(_) => EndsByKex(q[1..], r, skips);
      case Init(_, _) => if skips { EndsByKex(q[1..], r, skips); } else { EndsByKex(q[1..], r + 1, false); }
      case Ack(_, _) => EndsByKex(q[1..], r + 1, false);
    }
  }

  // ----------------------------------------------------- what the sender can do

  /** Another text under the sender's current epoch. */
  lemma {:induction false} AppendText(q: seq<Flight>, f: Flight, r: int, c: nat, d: nat, skips: bool,
                                      byA: bool, i: int, tx: nat, secrets: seq<Bytes>)
    requires Ready(q, r, c, d, skips, byA, i, tx, secrets)
    requires f.msg.Text? && f.idx == i && IsText(f, i, byA, tx, secrets)
    ensures Ready(q + [f], r, c, d, skips, byA, i, Inc(tx), secrets)
  {
    hide IsText;
    if q == [] {
      assert (q + [f])[1..] == [];
    } else {
      assert (q + [f])[1..] == q[1..] + [f];
      var g := q[0];
      match g.msg
      case Text(_) =>
        if IsText(g, r, byA, c, secrets) && Ready(q[1..], r, Inc(c), d, skips, byA, i, tx, secrets) {
          AppendText(q[1..], f, r, Inc(c), d, skips, byA, i, tx, secrets);
        } else {
          AppendText(q[1..], f, r, c, Inc(d), skips, byA, i, tx, secrets);
        }
      case Init(_, _) =>
        if skips {
          AppendText(q[1..], f, r, c, d, skips, byA, i, tx, secrets);
        } else {
          AppendText(q[1..], f, r + 1, 0, c, false, byA, i, tx, secrets);
        }
      case Ack(_, _) =>
        AppendText(q[1..], f, r + 1, 0, c, false, byA, i, tx, secrets);
    }
  }

  /** An INIT for the next epoch, or an ACK by which the sender itself moves to it. */
  lemma {:induction false} AppendKex(q: seq<Flight>, f: Flight, r: int, c: nat, d: nat, skips: bool,
                                     byA: bool, i: int, tx: nat, secrets: seq<Bytes>)
    requires Ready(q, r, c, d, skips, byA, i, tx, secrets)
    requires EndsAt(q, r, skips) == i && f.idx == i + 1
    ensures f.msg.Init? ==> Ready(q + [f], r, c, d, skips, byA, i, tx, secrets)
    ensures f.msg.Ack? ==> Ready(q + [f], r, c, d, skips, byA, i + 1, 0, secrets)
  {
    hide IsText;
    if q == [] {
      assert (q + [f])[1..] == [];
    } else {
      assert (q + [f])[1..] == q[1..] + [f];
      var g := q[0];
      match g.msg
      case Text(_) =>
        if IsText(g, r, byA, c, secrets) && Ready(q[1..], r, Inc(c), d, skips, byA, i, tx, secrets) {
          AppendKex(q[1..], f, r, Inc(c), d, skips, byA, i, tx, secrets);
        } else {
          AppendKex(q[1..], f, r, c, Inc(d), skips, byA, i, tx, secrets);
        }
      case Init(_, _) =>
        if skips {
          AppendKex(q[1..], f, r, c, d, skips, byA, i, tx, secrets);
        } else {
          AppendKex(q[1..], f, r + 1, 0, c, false, byA, i, tx, secrets);
        }
      case Ack(_, _) =>
        AppendKex(q[1..], f, r + 1, 0, c, false, byA, i, tx, secrets);
    }
  }

  /** The sender catches up with a receiver that is already one epoch ahead. */
  lemma {:induction false} CatchUp(q: seq<Flight>, r: int, c: nat, d: nat, skips: bool,
                                   byA: bool, i: int, tx: nat, secrets: seq<Bytes>)
    requires Ready(q, r, c, d, skips, byA, i, tx, secrets) && EndsAt(q, r, skips) == i + 1
    ensures Ready(q, r, c, d, skips, byA, i + 1, 0, secrets)
  {
    hide IsText;
    if q == [] {
    } else {
      var g := q[0];
      match g.msg
      case Text(_) =>
        if IsText(g, r, byA, c, secrets) && Ready(q[1..], r, Inc(c), d, skips, byA, i, tx, secrets) {
          CatchUp(q[1..], r, Inc(c), d, skips, byA, i, tx, secrets);
        } else {
          CatchUp(q[1..], r, c, Inc(d), skips, byA, i, tx, secrets);
        }
      case Init(_, _) =>
        if skips {
          CatchUp(q[1..], r, c, d, skips, byA, i, tx, secrets);
        } else {
          CatchUp(q[1..], r + 1, 0, c, false, byA, i, tx, secrets);
        }
      case Ack(_, _) =>
        CatchUp(q[1..], r + 1, 0, c, false, byA, i, tx, secrets);
    }
  }

  lemma {:induction false} MoreSecrets(q: seq<Flight>, r: int, c: nat, d: nat, skips: bool,
                                       byA: bool, i: int, tx: nat, secrets: seq<Bytes>, z: Bytes)
    requires Ready(q, r, c, d, skips, byA, i, tx, secrets)
    ensures Ready(q, r, c, d, skips, byA, i, tx, secrets + [z])
  {
    hide Derive, SealKey, NonceOf;
    if q == [] {
    } else {
      var g := q[0];
      match g.msg
      case Text(_) =>
        if IsText(g, r, byA, c, secrets) && Ready(q[1..], r, Inc(c), d, skips, byA, i, tx, secrets) {
          MoreSecrets(q[1..], r, Inc(c), d, skips, byA, i, tx, secrets, z);
        } else {
          MoreSecrets(q[1..], r, c, Inc(d), skips, byA, i, tx, secrets, z);
        }
      case Init(_, _) =>
        if skips {
          MoreSecrets(q[1..], r, c, d, skips, byA, i, tx, secrets, z);
        } else {
          MoreSecrets(q[1..], r + 1, 0, c, false, byA, i, tx, secrets, z);
        }
      case Ack(_, _) =>
        MoreSecrets(q[1..], r + 1, 0, c, false, byA, i, tx, secrets, z);
    }
  }

  // --------------------------------------------------- what the receiver can do

  /** Texts behind an INIT the receiver would have followed still open when it is ignored. */
  lemma {:induction false} StayBehind(q: seq<Flight>, r: int, d: nat, e: nat, skips: bool, skips': bool,
                                      byA: bool, tx: nat, secrets: seq<Bytes>)
    requires Kex(q) == [] && Ready(q, r + 1, 0, d, skips, byA, r, tx, secrets)
    ensures Ready(q, r, d, e, skips', byA, r, tx, secrets)
  {
    if q == [] {
    } else {
      hide Derive, SealKey, NonceOf;
      assert q[0].msg.Text?;
      StayBehind(q[1..], r, Inc(d), e, skips, skips', byA, tx, secrets);
    }
  }

  /** The a-side begins a rotation: from now on it ignores b's INIT for the same epoch. */
  lemma {:induction false} BeginSkipping(q: seq<Flight>, r: int, c: nat, d: nat,
                                         byA: bool, i: int, tx: nat, secrets: seq<Bytes>)
    requires Ready(q, r, c, d, false, byA, i, tx, secrets)
    requires Kex(q) == [] || (r == i && |Kex(q)| == 1 && Kex(q)[0].msg.Init?)
    ensures Ready(q, r, c, d, true, byA, i, tx, secrets)
  {
    hide IsText;
    if q == [] {
    } else {
      var g := q[0];
      assert !g.msg.Text? ==> Kex(q) == [g] + Kex(q[1..]);
      match g.msg
      case Text(_) =>
        if IsText(g, r, byA, c, secrets) && Ready(q[1..], r, Inc(c), d, false, byA, i, tx, secrets) {
          BeginSkipping(q[1..], r, Inc(c), d, byA, i, tx, secrets);
        } else {
          BeginSkipping(q[1..], r, c, Inc(d), byA, i, tx, secrets);
        }
      case Init(_, _) =>
        StayBehind(q[1..], r, c, d, false, true, byA, tx, secrets);
      case Ack(_, _) =>
        assert false;
    }
  }

  // --------------------------------------------------------- the two directions

  function Rx(n: Node): nat {
    if n.idx >= 0 && n.peer.Some? then n.peer.value.cur.rx else 0
  }

  function PrevRx(n: Node): nat {
    if n.idx >= 1 && n.peer.Some? then n.peer.value.prev.rx else 0
  }

  function Tx(n: Node): nat {
    if n.idx >= 0 && n.peer.Some? then n.peer.value.cur.tx else 0
  }

  function Texts(q: seq<Flight>): seq<string> {
    if q == [] then []
    else if q[0].msg.Text? && q[0].msg.m.Chat? && q[0].msg.m.ct.Sealed?
    then [q[0].msg.m.ct.plaintext] + Texts(q[1..])
    else Texts(q[1..])
  }

  /** y's channel opens at n, from where n is now; yIsA tells which side y is. */
  predicate Flows(y: Node, n: Node, yIsA: bool, secrets: seq<Bytes>) {
    Ready(y.out, n.idx, Rx(n), PrevRx(n), !yIsA && Rotating(n), yIsA, y.idx, Tx(y), secrets)
  }

  /** Nothing lost, nothing repeated, nothing out of order. */
  predicate Intact(y: Node, n: Node) {
    n.got + Texts(y.out) == y.sent && n.refused == 0
  }

  predicate Flowing(n: Node, y: Node, amA: bool, secrets: seq<Bytes>) {
    Flows(y, n, !amA, secrets) && Flows(n, y, amA, secrets) && Intact(y, n) && Intact(n, y)
  }

  lemma {:induction false} TextsAppend(q: seq<Flight>, f: Flight)
    ensures Texts(q + [f]) == Texts(q) + Texts([f])
  {
    if q == [] {
      assert q + [f] == [f];
    } else {
      assert (q + [f])[1..] == q[1..] + [f];
      TextsAppend(q[1..], f);
    }
  }

  /** Where n's channel takes y, by shape: to n's own epoch, or one past it if y moves first. */
  lemma EndsByShape(n: Node, y: Node, amA: bool, secrets: seq<Bytes>)
    requires Sound(n, y, amA, secrets)
    ensures var e := EndsAt(n.out, y.idx, amA == false && Rotating(y));
            && (!Rotating(n) ==> e == n.idx)
            && (Crossed(n, y, secrets) && !amA ==> e == n.idx)
            && (!amA && Won(y, n, secrets) ==> e == n.idx)
            && (Ahead(n, y, amA, secrets) ==> e == n.idx + 1)
  {
    hide Derive, Dh.SharedSecret, Dh.PublicBytes, Dh.ValidPublic;
    EndsByKex(n.out, y.idx, !amA && Rotating(y));
    var k := Kex(n.out);
    var skips := !amA && Rotating(y);
    if |k| == 1 {
      assert k[1..] == [];
    } else if |k| == 2 {
      if !Rotating(n) {
        assert Ahead(y, n, !amA, secrets) && k[0].msg.Init? && k[1].msg.Ack?;
        assert EndsAt(k, y.idx, skips) == EndsAt(k[1..], y.idx, skips);
        assert k[1..][1..] == [];
        assert EndsAt(k[1..], y.idx, skips) == EndsAt(k[1..][1..], y.idx + 1, false);
        assert EndsAt([], y.idx + 1, false) == y.idx + 1;
        assert n.idx == y.idx + 1;
      }
    }
  }

  // ------------------------------------------------ every step keeps both flowing

  /** n sends an INIT and begins waiting for its answer. */
  lemma InitSent(n: Node, m: Node, y: Node, amA: bool, secrets: seq<Bytes>)
    requires Sound(n, y, amA, secrets) && Flowing(n, y, amA, secrets)
    requires !Rotating(n) && Rotating(m)
    requires |m.out| == |n.out| + 1 && m.out[..|n.out|] == n.out
    requires m.out[|n.out|].msg.Init? && m.out[|n.out|].idx == n.idx + 1
    requires m.idx == n.idx && m.sent == n.sent && m.got == n.got && m.refused == n.refused
    requires Rx(m) == Rx(n) && PrevRx(m) == PrevRx(n) && Tx(m) == Tx(n)
    ensures Flowing(m, y, amA, secrets)
  {
    hide Ready, Kex, EndsAt, Shaped, Settled, Rx, PrevRx, Tx;
    var f := m.out[|n.out|];
    assert m.out == n.out + [f];
    EndsByShape(n, y, amA, secrets);
    AppendKex(n.out, f, y.idx, Rx(y), PrevRx(y), !amA && Rotating(y), amA, n.idx, Tx(n), secrets);
    TextsAppend(n.out, f);
    if amA {
      QuietSenderKex(n, y, amA, secrets);
      BeginSkipping(y.out, n.idx, Rx(n), PrevRx(n), !amA, y.idx, Tx(y), secrets);
    }
  }

  lemma QuietSenderKex(n: Node, y: Node, amA: bool, secrets: seq<Bytes>)
    requires Sound(n, y, amA, secrets) && !Rotating(n)
    ensures Kex(y.out) == [] || (n.idx == y.idx && |Kex(y.out)| == 1 && Kex(y.out)[0].msg.Init?)
  {
    hide Derive, Dh.SharedSecret, Dh.PublicBytes, Dh.ValidPublic, Kex;
  }

  lemma StartFlows(n: Node, y: Node, amA: bool, x: nat, now: int, secrets: seq<Bytes>)
    requires Sound(n, y, amA, secrets) && Flowing(n, y, amA, secrets) && n.peer.None?
    ensures Flowing(Started(n, amA, x, now), y, amA, secrets)
  {
    hide Ready, Kex, Texts, Dh.PublicBytes;
    InitSent(n, Started(n, amA, x, now), y, amA, secrets);
  }

  lemma TickFlows(n: Node, y: Node, amA: bool, rnd: Option<nat>, now: int, t: Timing, secrets: seq<Bytes>)
    requires Sound(n, y, amA, secrets) && Flowing(n, y, amA, secrets)
    ensures Flowing(Ticked(n, rnd, now, t), y, amA, secrets)
  {
    hide Ready, Kex, Texts, Dh.PublicBytes, Derive;
    var m := Ticked(n, rnd, now, t);
    if |m.out| > |n.out| {
      InitSent(n, m, y, amA, secrets);
    }
  }

  lemma SayFlows(n: Node, y: Node, amA: bool, text: string, now: int, secrets: seq<Bytes>)
    requires Sound(n, y, amA, secrets) && Flowing(n, y, amA, secrets)
    ensures Flowing(Said(n, text, now), y, amA, secrets)
  {
    hide Ready, Kex, Derive, NonceOf;
    var m := Said(n, text, now);
    if |m.out| > |n.out| {
      var f := m.out[|n.out|];
      SaidIsText(n, amA, text, now, secrets);
      AppendText(n.out, f, y.idx, Rx(y), PrevRx(y), !amA && Rotating(y), amA, n.idx, Tx(n), secrets);
      TextsAppend(n.out, f);
      assert Texts([f]) == [text];
    }
  }

  lemma SaidIsText(n: Node, amA: bool, text: string, now: int, secrets: seq<Bytes>)
    requires Settled(n, amA, secrets) && n.idx >= 0
    ensures var m := Said(n, text, now);
            && m.out[..|n.out|] == n.out && |m.out| == |n.out| + 1
            && IsText(m.out[|n.out|], n.idx, amA, Tx(n), secrets)
            && m.out[|n.out|].msg.m.ct.plaintext == text
  {
    hide Derive, NonceOf, Dh.PublicBytes, Dh.ValidPublic;
    DeriveHead(U32(n.idx), secrets[n.idx]);
  }

  /** The message at the head is for the previous epoch, and its grace window is still open. */
  predicate InTime(n: Node, f: Flight, now: int) {
    f.msg.Text? && f.idx == n.idx - 1 && n.peer.Some? ==>
      n.peer.value.havePrev && now < n.peer.value.graceUntil
  }

  /** A message whose turn has come opens to the text that was sealed. */
  lemma OpensAtHead(n: Node, f: Flight, amA: bool, x: nat, now: int, t: Timing, secrets: seq<Bytes>)
    requires Settled(n, amA, secrets) && InTime(n, f, now)
    requires IsText(f, n.idx, !amA, Rx(n), secrets) || IsText(f, n.idx - 1, !amA, PrevRx(n), secrets)
    ensures var m := Received(n, amA, f.msg, x, now, t);
            && m.peer.Some?
            && m == n.(peer := m.peer, got := n.got + [f.msg.m.ct.plaintext])
            && Rotating(m) == Rotating(n) && Tx(m) == Tx(n)
            && (if f.idx == n.idx then Rx(m) == Inc(Rx(n)) && PrevRx(m) == PrevRx(n)
                else Rx(m) == Rx(n) && PrevRx(m) == Inc(PrevRx(n)))
  {
    hide Derive, NonceOf, Dh.PublicBytes, Dh.ValidPublic;
    U32Facts(n.idx - 1);
    DeriveHead(U32(n.idx), secrets[n.idx]);
    if n.idx >= 1 {
      DeriveHead(U32(n.idx - 1), secrets[n.idx - 1]);
    }
  }

  /** n has handled the head of y's channel and both directions still flow. */
  predicate ReceivedFlowing(n: Node, y: Node, amA: bool, x: nat, now: int, t: Timing, secrets: seq<Bytes>)
    requires y.out != []
  {
    var m := Received(n, amA, y.out[0].msg, x, now, t);
    Flowing(m, y.(out := y.out[1..]), amA, Recorded(secrets, m.idx, y.out[0].msg, x))
  }

  lemma ReadyText(q: seq<Flight>, r: int, c: nat, d: nat, skips: bool, byA: bool, i: int, tx: nat, secrets: seq<Bytes>)
    requires q != [] && q[0].msg.Text? && Ready(q, r, c, d, skips, byA, i, tx, secrets)
    ensures || (IsText(q[0], r, byA, c, secrets) && Ready(q[1..], r, Inc(c), d, skips, byA, i, tx, secrets))
            || (IsText(q[0], r - 1, byA, d, secrets) && Ready(q[1..], r, c, Inc(d), skips, byA, i, tx, secrets))
  {
    hide IsText;
  }

  lemma ReadyInit(q: seq<Flight>, r: int, c: nat, d: nat, byA: bool, i: int, tx: nat, secrets: seq<Bytes>)
    requires q != [] && q[0].msg.Init? && Ready(q, r, c, d, false, byA, i, tx, secrets)
    ensures Ready(q[1..], r + 1, 0, c, false, byA, i, tx, secrets)
  {
    hide IsText;
  }

  lemma TextFlows(n: Node, y: Node, amA: bool, x: nat, now: int, t: Timing, secrets: seq<Bytes>)
    requires Sound(n, y, amA, secrets) && Flowing(n, y, amA, secrets)
    requires y.out != [] && y.out[0].msg.Text? && InTime(n, y.out[0], now)
    ensures ReceivedFlowing(n, y, amA, x, now, t, secrets)
  {
    hide Received, InTime, SealedAs, Kex, Shaped, Ready, Derive, NonceOf;
    ReadyText(y.out, n.idx, Rx(n), PrevRx(n), amA && Rotating(n), !amA, y.idx, Tx(y), secrets);
    OpensAtHead(n, y.out[0], amA, x, now, t, secrets);
    var text := y.out[0].msg.m.ct.plaintext;
    assert n.got + Texts(y.out) == n.got + [text] + Texts(y.out[1..]);
  }

  lemma MoreSecretsFlows(n: Node, y: Node, amA: bool, secrets: seq<Bytes>, z: Bytes)
    requires Flowing(n, y, amA, secrets)
    ensures Flowing(n, y, amA, secrets + [z])
  {
    hide Ready;
    MoreSecrets(y.out, n.idx, Rx(n), PrevRx(n), amA && Rotating(n), !amA, y.idx, Tx(y), secrets, z);
    MoreSecrets(n.out, y.idx, Rx(y), PrevRx(y), !amA && Rotating(y), amA, n.idx, Tx(n), secrets, z);
  }

  lemma InitIgnoredFlows(n: Node, y: Node, amA: bool, x: nat, now: int, t: Timing, secrets: seq<Bytes>)
    requires Sound(n, y, amA, secrets) && Flowing(n, y, amA, secrets)
    requires y.out != [] && y.out[0].msg.Init?
    requires Ahead(n, y, amA, secrets) || (amA && Crossed(n, y, secrets))
    ensures ReceivedFlowing(n, y, amA, x, now, t, secrets)
  {
    hide Derive, Dh.SharedSecret, Dh.PublicBytes, Dh.ValidPublic, IsText;
    var f := y.out[0];
    U32Facts(n.idx);
    assert Kex(y.out) == [f] + Kex(y.out[1..]);
    assert Received(n, amA, f.msg, x, now, t) == n;
  }

  lemma AnswerableInit(n: Node, y: Node, amA: bool, secrets: seq<Bytes>)
    requires Sound(n, y, amA, secrets)
    requires y.out != [] && y.out[0].msg.Init?
    requires !Ahead(n, y, amA, secrets) && !(amA && Crossed(n, y, secrets))
    ensures Answerable(n, y, amA, secrets)
    ensures EndsAt(n.out, y.idx, !amA && Rotating(y)) == n.idx
  {
    hide Derive, Dh.SharedSecret, Dh.PublicBytes, Dh.ValidPublic;
    InitShapes(n, y, amA, secrets);
    EndsByShape(n, y, amA, secrets);
  }

  /** What answering an INIT does to its receiver. */
  lemma AnsweredNode(n: Node, y: Node, amA: bool, x: nat, now: int, t: Timing, secrets: seq<Bytes>)
    requires Sound(n, y, amA, secrets) && Honest(x)
    requires y.out != [] && y.out[0].msg.Init?
    requires !Ahead(n, y, amA, secrets) && !(amA && Crossed(n, y, secrets))
    ensures var f := y.out[0];
            var z := Dh.SharedSecret(x, f.msg.pub);
            var m := Received(n, amA, f.msg, x, now, t);
            && z.Some? && m.out == n.out + [Flight(Ack(f.msg.epoch, Dh.PublicBytes(x)), n.idx + 1, now)]
            && m.idx == n.idx + 1 && Rx(m) == Tx(m) == 0 && PrevRx(m) == Rx(n) && !Rotating(m)
            && m.sent == n.sent && m.got == n.got && m.refused == n.refused
            && Recorded(secrets, m.idx, f.msg, x) == secrets + [z.value]
  {
    hide Derive, Dh.SharedSecret, Dh.PublicBytes, Dh.ValidPublic, Shaped, Kex;
    AnswerableInit(n, y, amA, secrets);
    Dh.Agreement(x, y.peer.value.nextKp.priv);
    DeriveHead(y.out[0].msg.epoch, Dh.SharedSecret(x, y.out[0].msg.pub).value);
  }

  lemma InitAnsweredFlows(n: Node, y: Node, amA: bool, x: nat, now: int, t: Timing, secrets: seq<Bytes>)
    requires Sound(n, y, amA, secrets) && Flowing(n, y, amA, secrets) && Honest(x)
    requires y.out != [] && y.out[0].msg.Init?
    requires !Ahead(n, y, amA, secrets) && !(amA && Crossed(n, y, secrets))
    ensures ReceivedFlowing(n, y, amA, x, now, t, secrets)
  {
    hide Derive, Dh.SharedSecret, Dh.PublicBytes, Dh.ValidPublic, IsText, Shaped, Kex, EndsAt, Ready, Received, Recorded;
    var f := y.out[0];
    AnsweredNode(n, y, amA, x, now, t, secrets);
    AnswerableInit(n, y, amA, secrets);
    ReadyInit(y.out, n.idx, Rx(n), PrevRx(n), !amA, y.idx, Tx(y), secrets);
    var m := Received(n, amA, f.msg, x, now, t);
    var y' := y.(out := y.out[1..]);
    var ack := Flight(Ack(f.msg.epoch, Dh.PublicBytes(x)), n.idx + 1, now);
    AppendKex(n.out, ack, y.idx, Rx(y), PrevRx(y), !amA && Rotating(y), amA, n.idx, Tx(n), secrets);
    TextsAppend(n.out, ack);
    assert Texts([ack]) == [] && Texts(m.out) == Texts(n.out);
    assert Flowing(m, y', amA, secrets);
    MoreSecretsFlows(m, y', amA, secrets, Dh.SharedSecret(x, f.msg.pub).value);
  }

  lemma AckFlows(n: Node, y: Node, amA: bool, x: nat, now: int, t: Timing, secrets: seq<Bytes>)
    requires Sound(n, y, amA, secrets) && Flowing(n, y, amA, secrets)
    requires y.out != [] && y.out[0].msg.Ack?
    ensures ReceivedFlowing(n, y, amA, x, now, t, secrets)
  {
    hide Derive, Dh.SharedSecret, Dh.PublicBytes, Dh.ValidPublic, IsText;
    var f := y.out[0];
    U32Facts(n.idx);
    assert Kex(y.out) == [f] + Kex(y.out[1..]);
    assert Ahead(n, y, amA, secrets);
    DeriveHead(U32(y.idx), secrets[y.idx]);
    EndsByShape(n, y, amA, secrets);
    CatchUp(n.out, y.idx, Rx(y), PrevRx(y), !amA && Rotating(y), amA, n.idx, Tx(n), secrets);
  }

  lemma ReceiveFlows(n: Node, y: Node, amA: bool, x: nat, now: int, t: Timing, secrets: seq<Bytes>)
    requires Sound(n, y, amA, secrets) && Flowing(n, y, amA, secrets) && Honest(x)
    requires y.out != [] && InTime(n, y.out[0], now)
    ensures ReceivedFlowing(n, y, amA, x, now, t, secrets)
  {
    hide *;
    match y.out[0].msg
    case Init(_, _) =>
      if Ahead(n, y, amA, secrets) || (amA && Crossed(n, y, secrets)) {
        InitIgnoredFlows(n, y, amA, x, now, t, secrets);
      } else {
        InitAnsweredFlows(n, y, amA, x, now, t, secrets);
      }
    case Ack(_, _) => AckFlows(n, y, amA, x, now, t, secrets);
    case Text(_) => TextFlows(n, y, amA, x, now, t, secrets);
  }

  predicate AllFlowing(s: Sys) {
    Flowing(s.a, s.b, true, s.secrets)
  }

  /** A delivered message whose epoch is already retired still finds its grace window open. */
  predicate StepInTime(s: Sys, step: Step) {
    step.Deliver? && At(s, Other(step.side)).out != [] ==>
      InTime(At(s, step.side), At(s, Other(step.side)).out[0], s.now)
  }

  lemma StepFlows(s: Sys, step: Step, t: Timing)
    requires Inv(s) && AllFlowing(s) && Legal(s, step) && StepInTime(s, step)
    ensures AllFlowing(Next(s, step, t))
  {
    hide Sound, Started, Ticked, Said, Received, Recorded, Honest, Flows, Intact, InTime;
    var side := if step.Wait? then A else step.side;
    var n, y := At(s, side), At(s, Other(side));
    SeenFromEitherSide(s, side);
    assert Flowing(n, y, side == A, s.secrets);
    match step
    case Start(_, x) => StartFlows(n, y, side == A, x, s.now, s.secrets);
    case Tick(_, rnd) => TickFlows(n, y, side == A, rnd, s.now, t, s.secrets);
    case Deliver(_, x) => ReceiveFlows(n, y, side == A, x, s.now, t, s.secrets);
    case Say(_, text) => SayFlows(n, y, side == A, text, s.now, s.secrets);
    case Wait(_) =>
  }

  // -------------------------------------------------------------------- all runs

  predicate RunInTime(s: Sys, steps: seq<Step>, t: Timing)
    decreases |steps|
  {
    steps == [] || (StepInTime(s, steps[0]) && RunInTime(Next(s, steps[0], t), steps[1..], t))
  }

  lemma {:induction false} RunFlows(s: Sys, steps: seq<Step>, t: Timing)
    requires Inv(s) && AllFlowing(s) && LegalRun(s, steps, t) && RunInTime(s, steps, t)
    ensures AllFlowing(Run(s, steps, t))
    decreases |steps|
  {
    hide Inv, AllFlowing, Next, Legal, StepInTime;
    if steps == [] {
    } else {
      StepKeeps(s, steps[0], t);
      StepFlows(s, steps[0], t);
      RunFlows(Next(s, steps[0], t), steps[1..], t);
    }
  }

  /**
   * Across any number of rotations, no message is refused, the texts opened on
   * each side are a prefix of those sealed on the other, a drained channel makes
   * them equal, and the message next in line belongs to the receiver's current
   * or previous epoch.
   */
  lemma Lossless(steps: seq<Step>, t: Timing)
    requires LegalRun(Initial(), steps, t) && RunInTime(Initial(), steps, t)
    ensures var s := Run(Initial(), steps, t);
            && s.a.refused == s.b.refused == 0
            && s.b.got <= s.a.sent && s.a.got <= s.b.sent
            && (s.a.out == [] ==> s.b.got == s.a.sent)
            && (s.b.out == [] ==> s.a.got == s.b.sent)
            && (s.a.out != [] && s.a.out[0].msg.Text? ==> s.b.idx - 1 <= s.a.out[0].idx <= s.b.idx)
            && (s.b.out != [] && s.b.out[0].msg.Text? ==> s.a.idx - 1 <= s.b.out[0].idx <= s.a.idx)
  {
    assert Inv(Initial()) && AllFlowing(Initial());
    RunFlows(Initial(), steps, t);
  }
}
