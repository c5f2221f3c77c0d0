/**
 * What users learn by comparing fingerprints. Whatever the network hands two
 * clients, if the fingerprints last shown to their users are the same, then the
 * two hold the same epoch, keys and salt; so nobody sits in between.
 */
module Fingerprint {
  import opened Wrappers
  import opened ByteStrings
  import opened Crypto
  import opened E2e
  import opened Client
  import Dh
  import Grammar
  import HashInputs
  import Names
  import Rotation

  /** A line from whoever is at the other end of the connection, or something the user or the timer does. */
  datatype Act =
    | Shows(line: string, rnd: Option<nat>, now: int)
    | Types(to: string, text: string)
    | Asks(to: string, rnd: Option<nat>, now: int)
    | Ticks(rnds: map<string, nat>, now: int)

  ghost function After(v: View, act: Act, codec: Codec, me: string, t: Timing): View {
    match act
    case Shows(line, rnd, now) => Displayed(v, codec, me, line, rnd, now, t.grace)
    case Types(to, text) => Typed(v, codec, to, text)
    case Asks(to, rnd, now) => Requested(v, me, to, rnd, now)
    case Ticks(rnds, now) => Timed(v, rnds, now, t)
  }

  ghost function Life(v: View, acts: seq<Act>, codec: Codec, me: string, t: Timing): View
    decreases |acts|
  {
    if acts == [] then v else Life(After(v, acts[0], codec, me, t), acts[1..], codec, me, t)
  }

  function Nobody(): View {
    View(map[], [], [])
  }

  /** The epoch number and fingerprint last shown for a peer. */
  function LastShown(shown: seq<Notice>, name: string): Option<(nat, seq<Octet>)> {
    if shown == [] then None
    else
      match shown[|shown| - 1]
      case Installed(Rekeyed(peer, epoch, fp)) =>
        if peer == name then Some((epoch, fp)) else LastShown(shown[..|shown| - 1], name)
      case _ => LastShown(shown[..|shown| - 1], name)
  }

  lemma ShownAppend(shown: seq<Notice>, n: Notice, name: string)
    ensures LastShown(shown + [n], name) ==
            if n.Installed? && n.note.Rekeyed? && n.note.peer == name then Some((n.note.epoch, n.note.fp))
            else LastShown(shown, name)
  {
    assert (shown + [n])[..|shown|] == shown;
  }

  /** Up to its counters the epoch is one derived from a full-width secret. */
  ghost predicate IsDerived(e: Epoch) {
    e.n < TWO_32 && exists z: Bytes :: |z| == Dh.MODULUS_BYTES && Rotation.Uncounted(e) == Derive(e.n, z)
  }

  /** A peer in session holds a derived epoch, whose number and fingerprint were the last ones shown for it. */
  ghost predicate Announced(v: View, name: string) {
    InSession(v, name) ==>
      var e := v.peers[name].cur; IsDerived(e) && LastShown(v.shown, name) == Some((e.n, e.fp))
  }

  // ------------------------------------------------------------------ every act

  /** Neither the epoch a peer holds nor what was last shown for it changed, up to counters. */
  predicate Unchanged(v: View, w: View, name: string) {
    && LastShown(w.shown, name) == LastShown(v.shown, name)
    && (InSession(w, name) ==>
          InSession(v, name) && Rotation.Uncounted(w.peers[name].cur) == Rotation.Uncounted(v.peers[name].cur))
  }

  lemma UnchangedAnnounced(v: View, w: View, name: string)
    requires Announced(v, name) && Unchanged(v, w, name)
    ensures Announced(w, name)
  {
    hide Derive, LastShown;
  }

  lemma SentUnchanged(v: View, line: string, name: string)
    ensures LastShown(Sent(v, line).shown, name) == LastShown(v.shown, name)
  {
    hide LastShown;
    ShownAppend(v.shown, TooLong, name);
  }

  lemma TypedUnchanged(v: View, codec: Codec, to: string, text: string, name: string)
    ensures Unchanged(v, Typed(v, codec, to, text), name)
  {
    hide LastShown, ChatText, Grammar.MsgLine, NonceOf, Grammar.Sendable, Sent;
    ShownAppend(v.shown, Reserved, name);
    if InSession(v, to) {
      var (p, m) := SealPeer(Lookup(v.peers, to), text).value;
      var line := Grammar.MsgLine(to, TAG_MSG + ChatText(codec, m));
      var u := v.(peers := v.peers[to := p]);
      SentPeers(u, line);
      SentUnchanged(u, line, name);
      ShownAppend(Sent(u, line).shown, Echoed(to, text, true), name);
    } else {
      var line := Grammar.MsgLine(to, text);
      SentPeers(v, line);
      SentUnchanged(v, line, name);
      ShownAppend(Sent(v, line).shown, Echoed(to, text, false), name);
    }
  }

  lemma SentPeers(v: View, line: string)
    ensures Sent(v, line).peers == v.peers
  {
  }

  lemma RequestedUnchanged(v: View, me: string, to: string, rnd: Option<nat>, now: int, name: string)
    ensures Unchanged(v, Requested(v, me, to, rnd, now), name)
  {
    hide LastShown, KexText, Grammar.MsgLine, Names.Less, Dh.PublicBytes, Sent;
    ShownAppend(v.shown, Usage, name);
    ShownAppend(v.shown, Complaint(to, "cannot E2E with yourself"), name);
    ShownAppend(v.shown, Complaint(to, "DH keygen failed"), name);
    if rnd.Some? {
      var kp := Dh.Ephemeral(rnd.value, Dh.PublicBytes(rnd.value));
      var u := v.(peers := v.peers[to := StartPeer(Names.Less(me, to), kp, now)]);
      var line := Grammar.MsgLine(to, TAG_INIT + KexText(0, kp.pub));
      SentPeers(u, line);
      SentUnchanged(u, line, name);
      ShownAppend(Sent(u, line).shown, Requesting(to), name);
    }
  }

  lemma {:induction false} SentAllUnchanged(v: View, actions: seq<Action>, name: string)
    ensures SentAll(v, actions).peers == v.peers && LastShown(SentAll(v, actions).shown, name) == LastShown(v.shown, name)
  {
    hide LastShown, Grammar.MsgLine, Sent;
    if actions == [] {
    } else {
      var k := |actions| - 1;
      SentAllUnchanged(v, actions[..k], name);
      SentPeers(SentAll(v, actions[..k]), Grammar.MsgLine(actions[k].peer, actions[k].payload));
      SentUnchanged(SentAll(v, actions[..k]), Grammar.MsgLine(actions[k].peer, actions[k].payload), name);
    }
  }

  lemma TimedUnchanged(v: View, rnds: map<string, nat>, now: int, t: Timing, name: string)
    ensures Unchanged(v, Timed(v, rnds, now, t), name)
  {
    SentAllUnchanged(v.(peers := TickAll(v.peers, rnds, now, t)), Inits(v.peers, rnds, now, t), name);
    TickedCur(v.peers, rnds, now, t, name);
    hide LastShown, TickAll, Inits, SentAll;
  }

  lemma TickedCur(ps: map<string, Peer>, rnds: map<string, nat>, now: int, t: Timing, name: string)
    ensures var qs := TickAll(ps, rnds, now, t);
            qs.Keys == ps.Keys && (name in ps ==> qs[name].cur == ps[name].cur && qs[name].state == ps[name].state)
  {
  }

  lemma OpeningUnchanged(v: View, sender: string, m: ChatPayload, now: int, name: string)
    ensures Unchanged(v, Opening(v, sender, m, now), name)
  {
    hide LastShown, OpenUnder;
    match OpenPeer(Lookup(v.peers, sender), m, now)
    case Err(e) => ShownAppend(v.shown, Complaint(sender, e), name);
    case Ok((p, text)) => ShownAppend(v.shown, Opened(sender, text), name);
  }

  lemma InitDerives(p: Option<Peer>, amA: bool, epoch: nat, theirs: Bytes, rnd: Option<nat>, now: int, grace: nat)
    requires epoch < TWO_32
    ensures match OnInitPeer(p, amA, epoch, theirs, rnd, now, grace)
            case Answered(q, _) => IsDerived(q.cur) && q.cur.n == epoch && q.state == State.Up
            case Refused(_, kept) =>
              kept.Some? ==> p.Some? && kept.value.cur == p.value.cur && kept.value.state == p.value.state
            case Ignored => true
  {
    hide Dh.PublicBytes, Dh.ValidPublic, Dh.SharedSecret, Derive, IsDerived;
    if rnd.Some? && Dh.SharedSecret(rnd.value, theirs).Some? {
      DeriveIsDerived(epoch, Dh.SharedSecret(rnd.value, theirs).value);
    }
  }

  lemma DeriveIsDerived(n: nat, z: Bytes)
    requires n < TWO_32 && |z| == Dh.MODULUS_BYTES
    ensures IsDerived(Derive(n, z)) && Derive(n, z).n == n
  {
    assert Rotation.Uncounted(Derive(n, z)) == Derive(n, z);
  }

  lemma AckDerives(p: Option<Peer>, kex: Option<(nat, Bytes)>, now: int, grace: nat)
    requires kex.Some? ==> kex.value.0 < TWO_32
    ensures match OnAckPeer(p, kex, now, grace)
            case Ok(q) => IsDerived(q.cur) && q.state == State.Up
            case Err(_) => true
  {
    hide Dh.PublicBytes, Dh.ValidPublic, Dh.SharedSecret, Derive, IsDerived;
    if p.Some? && kex.Some? && Dh.SharedSecret(p.value.nextKp.priv, kex.value.1).Some? {
      DeriveIsDerived(kex.value.0, Dh.SharedSecret(p.value.nextKp.priv, kex.value.1).value);
    }
  }

  lemma InitiatedAnnounced(v: View, me: string, sender: string, payload: string, rnd: Option<nat>, now: int, grace: nat,
                           name: string)
    requires Announced(v, name)
    ensures Announced(Initiated(v, me, sender, payload, rnd, now, grace), name)
  {
    hide LastShown, KexText, KexOf, OnInitPeer, IsDerived, Names.Less, Grammar.MsgLine, Sent, Derive;
    KexDecodedRange(payload);
    match KexOf(payload)
    case None => ShownAppend(v.shown, Complaint(sender, "bad E2E init"), name);
    case Some((epoch, theirs)) =>
      InitDerives(Lookup(v.peers, sender), Names.Less(me, sender), epoch, theirs, rnd, now, grace);
      match OnInitPeer(Lookup(v.peers, sender), Names.Less(me, sender), epoch, theirs, rnd, now, grace)
      case Refused(e, kept) => ShownAppend(v.shown, Complaint(sender, e), name);
      case Ignored =>
      case Answered(p, pub) =>
        var u := v.(peers := v.peers[sender := p]);
        var line := Grammar.MsgLine(sender, TAG_ACK + KexText(epoch, pub));
        SentPeers(u, line);
        SentUnchanged(u, line, name);
        ShownAppend(Sent(u, line).shown, Installed(Rekeyed(sender, epoch, p.cur.fp)), name);
  }

  lemma AcknowledgedAnnounced(v: View, sender: string, payload: string, now: int, grace: nat, name: string)
    requires Announced(v, name)
    ensures Announced(Acknowledged(v, sender, payload, now, grace), name)
  {
    hide LastShown, KexOf, OnAckPeer, IsDerived, Derive;
    KexDecodedRange(payload);
    AckDerives(Lookup(v.peers, sender), KexOf(payload), now, grace);
    match OnAckPeer(Lookup(v.peers, sender), KexOf(payload), now, grace)
    case Err(e) => ShownAppend(v.shown, Complaint(sender, e), name);
    case Ok(p) => ShownAppend(v.shown, Installed(Rekeyed(sender, p.cur.n, p.cur.fp)), name);
  }

  lemma DisplayedAnnounced(v: View, codec: Codec, me: string, line: string, rnd: Option<nat>, now: int, grace: nat,
                           name: string)
    requires Announced(v, name)
    ensures Announced(Displayed(v, codec, me, line, rnd, now, grace), name)
  {
    hide Initiated, Acknowledged, Opening, Announced, Grammar.Classify, Grammar.Incoming, ChatOf, LastShown;
    match Grammar.Incoming(line)
    case None =>
      ShownAppend(v.shown, Printed(line), name);
      UnchangedAnnounced(v, Show(v, Printed(line)), name);
    case Some((sender, text)) =>
      match Grammar.Classify(text)
      case ToInit(p) => InitiatedAnnounced(v, me, sender, p, rnd, now, grace, name);
      case ToAck(p) => AcknowledgedAnnounced(v, sender, p, now, grace, name);
      case ToChat(p) =>
        OpeningUnchanged(v, sender, ChatOf(codec, p), now, name);
        UnchangedAnnounced(v, Opening(v, sender, ChatOf(codec, p), now), name);
      case Plain(chat) =>
        var n := Heard(sender, chat, InSession(v, sender));
        ShownAppend(v.shown, n, name);
        UnchangedAnnounced(v, Show(v, n), name);
  }

  lemma ActAnnounced(v: View, act: Act, codec: Codec, me: string, t: Timing, name: string)
    requires Announced(v, name)
    ensures Announced(After(v, act, codec, me, t), name)
  {
    hide Announced, Unchanged, Displayed, Typed, Requested, Timed;
    match act
    case Shows(line, rnd, now) => DisplayedAnnounced(v, codec, me, line, rnd, now, t.grace, name);
    case Types(to, text) =>
      TypedUnchanged(v, codec, to, text, name);
      UnchangedAnnounced(v, Typed(v, codec, to, text), name);
    case Asks(to, rnd, now) =>
      RequestedUnchanged(v, me, to, rnd, now, name);
      UnchangedAnnounced(v, Requested(v, me, to, rnd, now), name);
    case Ticks(rnds, now) =>
      TimedUnchanged(v, rnds, now, t, name);
      UnchangedAnnounced(v, Timed(v, rnds, now, t), name);
  }

  // ------------------------------------------------------------------- whole lives

  lemma {:induction false} LifeAnnounced(v: View, acts: seq<Act>, codec: Codec, me: string, t: Timing, name: string)
    requires Announced(v, name)
    ensures Announced(Life(v, acts, codec, me, t), name)
    decreases |acts|
  {
    hide Announced, After;
    if acts == [] {
    } else {
      ActAnnounced(v, acts[0], codec, me, t, name);
      LifeAnnounced(After(v, acts[0], codec, me, t), acts[1..], codec, me, t, name);
    }
  }

  /** Two derived epochs have the same fingerprint if and only if they are the same, with all keys and the salt. */
  lemma PrintDetermines(d: Epoch, e: Epoch)
    requires IsDerived(d) && IsDerived(e)
    ensures d.fp == e.fp <==> Rotation.Uncounted(d) == Rotation.Uncounted(e)
  {
    hide Derive;
    var y: Bytes :| |y| == Dh.MODULUS_BYTES && Rotation.Uncounted(d) == Derive(d.n, y);
    var z: Bytes :| |z| == Dh.MODULUS_BYTES && Rotation.Uncounted(e) == Derive(e.n, z);
    if d.n != e.n || y != z {
      HashInputs.EpochPartsDiffer(d.n, y, e.n, z);
    }
  }

  /**
   * Two clients anywhere, each with a network of its own that hands it any lines
   * at all: while both are in session, the fingerprints last shown to their users
   * are the same if and only if they hold the same epoch, keys and salt.
   */
  lemma ComparedPrints(a: seq<Act>, b: seq<Act>, codec: Codec, codec': Codec, me: string, me': string, t: Timing, t': Timing,
                       peer: string, peer': string)
    ensures var v, w := Life(Nobody(), a, codec, me, t), Life(Nobody(), b, codec', me', t');
            InSession(v, peer) && InSession(w, peer') ==>
              && LastShown(v.shown, peer).Some? && LastShown(w.shown, peer').Some?
              && (LastShown(v.shown, peer).value.1 == LastShown(w.shown, peer').value.1
                  <==> Rotation.Uncounted(v.peers[peer].cur) == Rotation.Uncounted(w.peers[peer'].cur))
  {
    var v, w := Life(Nobody(), a, codec, me, t), Life(Nobody(), b, codec', me', t');
    LifeAnnounced(Nobody(), a, codec, me, t, peer);
    LifeAnnounced(Nobody(), b, codec', me', t', peer');
    hide IsDerived, LastShown, Life;
    if InSession(v, peer) && InSession(w, peer') {
      PrintDetermines(v.peers[peer].cur, w.peers[peer'].cur);
    }
  }
}
