/**
 * Exactly when each handler of a Manager succeeds, for any message at all, in
 * terms of what the message and the entry contain.
 */
module Handlers {
  import opened Wrappers
  import opened ByteStrings
  import opened Crypto
  import opened E2e
  import Dh
  import Names

  /**
   * An INIT is ignored if and only if this side's own INIT for the same epoch is
   * out and its name comes first; any other is answered if and only if its value
   * is in range and a key pair could be generated.
   */
  lemma InitDecides(p: Option<Peer>, me: string, peer: string, epoch: nat, theirs: Bytes, rnd: Option<nat>, now: int,
                    grace: nat)
    ensures var o := OnInitPeer(p, Names.Less(me, peer), epoch, theirs, rnd, now, grace);
            && (o.Ignored? <==> p.Some? && p.value.rotating && p.value.nextEpoch == epoch && Names.Precedes(me, peer))
            && (o.Answered? <==> !o.Ignored? && rnd.Some? && Dh.ValidPublic(theirs))
            && (o.Refused? ==> o.kept == p || (p.Some? && o.kept == Some(p.value.(rotating := false))))
  {
    Names.LessIsByteOrder(me, peer);
    hide Derive, Dh.PublicBytes, Dh.ValidPublic, Names.Less, Names.Precedes;
  }

  /** An answer installs the epoch of the secret; what was current before stays readable for the window. */
  lemma AnswerInstalls(p: Option<Peer>, amA: bool, epoch: nat, theirs: Bytes, x: nat, now: int, grace: nat)
    requires OnInitPeer(p, amA, epoch, theirs, Some(x), now, grace).Answered?
    ensures Dh.SharedSecret(x, theirs).Some?
    ensures var o := OnInitPeer(p, amA, epoch, theirs, Some(x), now, grace);
            var q := o.after;
            && o.pub == Dh.PublicBytes(x) && q.cur == Derive(epoch, Dh.SharedSecret(x, theirs).value)
            && q.state == Up && !q.rotating && q.epochStart == now && (p.None? ==> q.amA == amA && !q.havePrev)
            && (p.Some? ==>
                  q.amA == p.value.amA && q.havePrev && q.prev == p.value.cur && q.graceUntil == now + grace * SECOND)
  {
    hide Derive, Dh.PublicBytes, Dh.ValidPublic;
  }

  /**
   * An ACK is accepted if and only if this side has an INIT out, the ACK is for
   * its epoch, and the value is in range; it then installs the epoch of the
   * secret, and an epoch that was in use stays readable for the window.
   */
  lemma AckDecides(p: Option<Peer>, kex: Option<(nat, Bytes)>, now: int, grace: nat)
    ensures var r := OnAckPeer(p, kex, now, grace);
            && (r.Ok? <==> p.Some? && p.value.rotating && kex.Some? && kex.value.0 == p.value.nextEpoch
                           && Dh.ValidPublic(kex.value.1))
            && (r.Ok? ==>
                  var q, z := r.value, Dh.SharedSecret(p.value.nextKp.priv, kex.value.1);
                  && z.Some? && q.cur == Derive(p.value.nextEpoch, z.value) && q.amA == p.value.amA
                  && q.state == Up && !q.rotating && q.epochStart == now
                  && (p.value.state == Up ==>
                        q.havePrev && q.prev == p.value.cur && q.graceUntil == now + grace * SECOND)
                  && (p.value.state == Pending ==>
                        q.havePrev == p.value.havePrev && q.prev == p.value.prev && q.graceUntil == p.value.graceUntil))
  {
    hide Derive, Dh.PublicBytes, Dh.ValidPublic;
  }

  /** What the other side of an epoch seals next, if it has sealed as many messages as were opened here. */
  function Expected(q: Peer, e: Epoch, text: string): ChatPayload {
    Chat(e.n, Sealed(SealKey(e, !q.amA), NonceOf(e.salt, e.rx), e.rx, text))
  }

  /** A peer seals if and only if it is in session, and then what its mirror image expects under the same epoch. */
  lemma SealDecides(p: Option<Peer>, text: string, q: Peer)
    ensures var r := SealPeer(p, text);
            && (r.Ok? <==> p.Some? && p.value.state == Up)
            && (r.Ok? ==>
                  && r.value.0 == p.value.(cur := p.value.cur.(tx := (p.value.cur.tx + 1) % TWO_64))
                  && (q.amA == !p.value.amA && q.cur == p.value.cur.(tx := q.cur.tx, rx := p.value.cur.tx) ==>
                        r.value.1 == Expected(q, q.cur, text)))
  {
    hide NonceOf;
  }

  /**
   * A message opens to a text if and only if it is the one expected next under the
   * current epoch, or under the previous one while its window lasts; only that
   * epoch's counter moves.
   */
  lemma OpenDecides(q: Peer, m: ChatPayload, now: int, text: string)
    requires q.state == Up
    ensures var current, previous := m == Expected(q, q.cur, text), m == Expected(q, q.prev, text);
            var readable := q.prev.n != q.cur.n && q.havePrev && now < q.graceUntil;
            var r := OpenPeer(Some(q), m, now);
            && (r.Ok? && r.value.1 == text <==> current || (previous && readable))
            && (r.Ok? && current ==> r.value.0 == q.(cur := q.cur.(rx := (q.cur.rx + 1) % TWO_64)))
            && (r.Ok? && previous && readable ==> r.value.0 == q.(prev := q.prev.(rx := (q.prev.rx + 1) % TWO_64)))
  {
    hide NonceOf;
  }

  /** Without a session nothing opens, and neither does text that does not decode. */
  lemma OpenRefuses(p: Option<Peer>, m: ChatPayload, now: int)
    ensures p.None? || p.value.state != Up || m.Undecodable? ==> OpenPeer(p, m, now).Err?
  {
  }
}
