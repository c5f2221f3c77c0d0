/**
 * The chat client: how typed text, incoming lines and the rotation timer drive
 * the end-to-end Manager. What a client does for one peer is exactly what the
 * two-party system of Rotation says its node does.
 */
module Client {
  import opened Wrappers
  import opened ByteStrings
  import opened Crypto
  import opened Protocol
  import opened E2e
  import Base64
  import Dh
  import Grammar
  import Names
  import Rotation
  import Sizes
  import Wire

  datatype Notice =
    | Heard(sender: string, text: string, downgraded: bool)
    | Opened(sender: string, text: string)
    | Complaint(sender: string, error: string)
    | Installed(note: Note)
    | Echoed(to: string, text: string, encrypted: bool)
    | Requesting(to: string)
    | Usage
    | Reserved
    | TooLong
    | Info(text: string)
    | ServerError(text: string)
    | Online(users: string)
    | LoggedIn(name: string)
    | Unrecognised(line: string)

  /** The Manager's entries, the lines sent to the server, and what was shown to the user. */
  datatype View = View(peers: map<string, Peer>, sent: seq<string>, shown: seq<Notice>)

  // -------------------------------------------------------------- specification

  function Show(v: View, n: Notice): View {
    v.(shown := v.shown + [n])
  }

  function Sent(v: View, line: string): View {
    if |line| > MAX_PLAINTEXT then Show(v, TooLong) else v.(sent := v.sent + [line])
  }

  predicate InSession(v: View, name: string) {
    name in v.peers && v.peers[name].state == State.Up
  }

  function Typed(v: View, codec: Codec, to: string, text: string): View {
    if !Grammar.Sendable(text) then Show(v, Reserved)
    else if InSession(v, to) then
      match SealPeer(Lookup(v.peers, to), text)
      case Err(e) => Show(v, Complaint(to, e))
      case Ok((p, m)) =>
        Show(Sent(v.(peers := v.peers[to := p]), Grammar.MsgLine(to, TAG_MSG + ChatText(codec, m))), Echoed(to, text, true))
    else Show(Sent(v, Grammar.MsgLine(to, text)), Echoed(to, text, false))
  }

  function Opening(v: View, sender: string, m: ChatPayload, now: int): View {
    match OpenPeer(Lookup(v.peers, sender), m, now)
    case Err(e) => Show(v, Complaint(sender, e))
    case Ok((p, text)) => Show(v.(peers := v.peers[sender := p]), Opened(sender, text))
  }

  function Initiated(v: View, me: string, sender: string, payload: string, rnd: Option<nat>, now: int, grace: nat): View {
    match KexOf(payload)
    case None => Show(v, Complaint(sender, "bad E2E init"))
    case Some((epoch, theirs)) =>
      match OnInitPeer(Lookup(v.peers, sender), Names.Less(me, sender), epoch, theirs, rnd, now, grace)
      case Refused(e, kept) => Show(v.(peers := Keep(v.peers, sender, kept)), Complaint(sender, e))
      case Ignored => v
      case Answered(p, pub) =>
        Show(Sent(v.(peers := v.peers[sender := p]), Grammar.MsgLine(sender, TAG_ACK + KexText(epoch, pub))),
             Installed(Rekeyed(sender, epoch, p.cur.fp)))
  }

  function Acknowledged(v: View, sender: string, payload: string, now: int, grace: nat): View {
    match OnAckPeer(Lookup(v.peers, sender), KexOf(payload), now, grace)
    case Err(e) => Show(v, Complaint(sender, e))
    case Ok(p) => Show(v.(peers := v.peers[sender := p]), Installed(Rekeyed(sender, p.cur.n, p.cur.fp)))
  }

  /** The text of a FROM line. */
  function Spoken(v: View, codec: Codec, me: string, sender: string, text: string,
                  rnd: Option<nat>, now: int, grace: nat): View
  {
    match Grammar.Classify(text)
    case ToInit(p) => Initiated(v, me, sender, p, rnd, now, grace)
    case ToAck(p) => Acknowledged(v, sender, p, now, grace)
    case ToChat(p) => Opening(v, sender, ChatOf(codec, p), now)
    case Plain(t) => Show(v, Heard(sender, t, InSession(v, sender)))
  }

  /** A line from the server. */
  function Displayed(v: View, codec: Codec, me: string, line: string, rnd: Option<nat>, now: int, grace: nat): View {
    match Grammar.Incoming(line)
    case Some((sender, text)) => Spoken(v, codec, me, sender, text, rnd, now, grace)
    case None => Show(v, Printed(line))
  }

  /** What is shown for a line that is not a FROM line. */
  function Printed(line: string): Notice {
    var verb, rest := Grammar.Verb(line), Grammar.Arguments(line);
    if verb == "INFO" then Info(rest)
    else if verb == "ERR" then ServerError(rest)
    else if verb == "USERS" then Online(rest)
    else if verb == "OK" then LoggedIn(rest)
    else Unrecognised(line)
  }

  /** The user asks for an end-to-end session. */
  function Requested(v: View, me: string, to: string, rnd: Option<nat>, now: int): View {
    if to == "" then Show(v, Usage)
    else if me == to then Show(v, Complaint(to, "cannot E2E with yourself"))
    else if rnd.None? then Show(v, Complaint(to, "DH keygen failed"))
    else
      var kp := Dh.Ephemeral(rnd.value, Dh.PublicBytes(rnd.value));
      var started := v.(peers := v.peers[to := StartPeer(Names.Less(me, to), kp, now)]);
      Show(Sent(started, Grammar.MsgLine(to, TAG_INIT + KexText(0, kp.pub))), Requesting(to))
  }

  function SentAll(v: View, actions: seq<Action>): View {
    if actions == [] then v
    else
      var k := |actions| - 1;
      Sent(SentAll(v, actions[..k]), Grammar.MsgLine(actions[k].peer, actions[k].payload))
  }

  /** One pass of the rotation timer. */
  ghost function Timed(v: View, rnd: map<string, nat>, now: int, t: Timing): View {
    SentAll(v.(peers := TickAll(v.peers, rnd, now, t)), Inits(v.peers, rnd, now, t))
  }

  // --------------------------------------------------------------------- client

  class Client {
    const me: string
    const manager: Manager
    var sent: seq<string>
    var shown: seq<Notice>

    function Look(): View
      reads this, manager
    {
      View(manager.peers, sent, shown)
    }

    constructor (name: string, t: Timing, codec: Codec)
      ensures Look() == View(map[], [], []) && me == name && fresh(manager)
      ensures manager.timing == t && manager.codec == codec
    {
      me := name;
      manager := new Manager(t, codec);
      sent, shown := [], [];
    }

    method Say(n: Notice)
      modifies this
      ensures Look() == Show(old(Look()), n)
    {
      shown := shown + [n];
    }

    /** Too long a line is reported and not sent. */
    method SendLine(line: string)
      modifies this
      ensures Look() == Sent(old(Look()), line)
    {
      if |line| > MAX_PLAINTEXT {
        Say(TooLong);
        return;
      }
      sent := sent + [line];
    }

    method SendMsgTo(to: string, text: string)
      modifies this, manager
      ensures Look() == Typed(old(Look()), manager.codec, to, text)
    {
      hide SealPeer, ChatText, Grammar.MsgLine;
      if "__E2E" <= text {
        Say(Reserved);
        return;
      }
      var payload, e2e := text, false;
      if manager.Established(to) {
        var enc := manager.Seal(to, text);
        if enc.Err? {
          Say(Complaint(to, enc.error));
          return;
        }
        payload, e2e := enc.value, true;
      }
      SendLine(Grammar.MsgLine(to, payload));
      Say(Echoed(to, text, e2e));
    }

    /** Handles a line from the server: a FROM line by the tag of its text, any other by its verb. */
    method Display(line: string, rnd: Option<nat>, now: int)
      modifies this, manager
      ensures Look() == Displayed(old(Look()), manager.codec, me, line, rnd, now, manager.timing.grace)
    {
      hide OnInitPeer, OnAckPeer, OpenPeer, KexOf, KexText, ChatOf, Names.Less, Grammar.Split, Grammar.Classify,
           Grammar.MsgLine;
      var verb, rest := Grammar.Verb(line), Grammar.Arguments(line);
      if verb == "FROM" {
        DisplayText(Grammar.Verb(rest), Grammar.Arguments(rest), rnd, now);
      } else if verb == "INFO" {
        Say(Info(rest));
      } else if verb == "ERR" {
        Say(ServerError(rest));
      } else if verb == "USERS" {
        Say(Online(rest));
      } else if verb == "OK" {
        Say(LoggedIn(rest));
      } else {
        Say(Unrecognised(line));
      }
    }

    method DisplayText(sender: string, text: string, rnd: Option<nat>, now: int)
      modifies this, manager
      ensures Look() == Spoken(old(Look()), manager.codec, me, sender, text, rnd, now, manager.timing.grace)
    {
      hide OnInitPeer, OnAckPeer, OpenPeer, KexOf, KexText, ChatOf, Names.Less, Grammar.MsgLine;
      var tag := Grammar.Classify(text);
      if tag.ToInit? {
        var reply := manager.OnInit(me, sender, tag.payload, rnd, now);
        if reply.Err? {
          Say(Complaint(sender, reply.error));
          return;
        }
        if reply.value.ack != "" {
          SendLine(Grammar.MsgLine(sender, reply.value.ack));
        }
        if reply.value.note != NoNote {
          Say(Installed(reply.value.note));
        }
      } else if tag.ToAck? {
        var note := manager.OnAck(sender, tag.payload, now);
        if note.Err? {
          Say(Complaint(sender, note.error));
          return;
        }
        Say(Installed(note.value));
      } else if tag.ToChat? {
        var plain := manager.Open(sender, tag.payload, now);
        if plain.Err? {
          Say(Complaint(sender, plain.error));
          return;
        }
        Say(Opened(sender, plain.value));
      } else {
        Say(Heard(sender, tag.text, manager.Established(sender)));
      }
    }

    method RequestSession(to: string, rnd: Option<nat>, now: int)
      modifies this, manager
      ensures Look() == Requested(old(Look()), me, to, rnd, now)
    {
      hide KexText, Names.Less, Dh.PublicBytes, StartPeer, Grammar.MsgLine;
      if to == "" {
        Say(Usage);
        return;
      }
      var payload := manager.Start(me, to, rnd, now);
      if payload.Err? {
        Say(Complaint(to, payload.error));
        return;
      }
      SendLine(Grammar.MsgLine(to, payload.value));
      Say(Requesting(to));
    }

    /** One pass of the rotation timer: everything the Manager asks for is sent. */
    method TimerPass(rnd: map<string, nat>, now: int)
      modifies this, manager
      ensures Look() == Timed(old(Look()), rnd, now, manager.timing)
    {
      hide TickAll, Inits, Grammar.MsgLine;
      var actions := manager.Tick(rnd, now);
      ghost var before := Look();
      var i := 0;
      while i < |actions|
        invariant 0 <= i <= |actions|
        invariant manager.peers == before.peers && Look() == SentAll(before, actions[..i])
      {
        assert actions[..i + 1][..i] == actions[..i];
        SendLine(Grammar.MsgLine(actions[i].peer, actions[i].payload));
        i := i + 1;
      }
      assert actions[..i] == actions;
    }
  }

  // --------------------------------------------------------- what the user sees

  /**
   * Plain text from a peer in session is shown with the warning, from anybody else
   * without it; it changes nothing and is never answered.
   */
  lemma PlainIsMarked(v: View, codec: Codec, me: string, sender: string, text: string, rnd: Option<nat>, now: int,
                      grace: nat)
    requires ' ' !in sender && !(TAG_INIT <= text) && !(TAG_ACK <= text) && !(TAG_MSG <= text)
    ensures var warned := sender in v.peers && v.peers[sender].state == State.Up;
            && Displayed(v, codec, me, Grammar.FromLine(sender, text), rnd, now, grace)
            == v.(shown := v.shown + [Heard(sender, text, warned)])
  {
    Grammar.LinesSplitBack(sender, text);
    hide Grammar.Incoming;
  }

  /** What the server says is shown by its verb, and a line with no known verb in full; nothing is answered. */
  lemma ServerLinesShown(v: View, codec: Codec, me: string, line: string, rnd: Option<nat>, now: int, grace: nat)
    requires Grammar.Verb(line) != "FROM"
    ensures var w := Displayed(v, codec, me, line, rnd, now, grace);
            && |w.shown| == |v.shown| + 1 && w == v.(shown := v.shown + [w.shown[|v.shown|]])
            && var n := w.shown[|v.shown|];
               && (n.Info? <==> Grammar.Verb(line) == "INFO") && (n.ServerError? <==> Grammar.Verb(line) == "ERR")
               && (n.Online? <==> Grammar.Verb(line) == "USERS") && (n.LoggedIn? <==> Grammar.Verb(line) == "OK")
               && var rest := Grammar.Arguments(line);
                  n in {Info(rest), ServerError(rest), Online(rest), LoggedIn(rest), Unrecognised(line)}
  {
    hide Grammar.Verb, Grammar.Arguments;
  }

  /** Text with the reserved beginning is refused; any other, without a session, is sent and echoed as it is. */
  lemma TypingDecides(v: View, codec: Codec, to: string, text: string)
    ensures |text| >= 5 && text[..5] == "__E2E" ==> Typed(v, codec, to, text) == v.(shown := v.shown + [Reserved])
    ensures (|text| < 5 || text[..5] != "__E2E") && !InSession(v, to) && |Grammar.MsgLine(to, text)| <= MAX_PLAINTEXT ==>
              Typed(v, codec, to, text)
              == View(v.peers, v.sent + [Grammar.MsgLine(to, text)], v.shown + [Echoed(to, text, false)])
  {
    hide Grammar.MsgLine, SealPeer;
  }

  /** A request that cannot be made is complained about, and neither sends nor changes anything. */
  lemma RequestRefused(v: View, me: string, to: string, rnd: Option<nat>, now: int)
    requires to == "" || me == to || rnd.None?
    ensures Requested(v, me, to, rnd, now)
         == v.(shown := v.shown + [if to == "" then Usage
                                   else Complaint(to, if me == to then "cannot E2E with yourself" else "DH keygen failed")])
  {
  }

  /** A key-exchange or chat text that does not decode is complained about, and neither answered nor acted upon. */
  lemma UndecodableIsRefused(v: View, codec: Codec, me: string, sender: string, tag: string, payload: string,
                             rnd: Option<nat>, now: int, grace: nat)
    requires ' ' !in sender && tag in {TAG_INIT, TAG_ACK, TAG_MSG} && Base64.Decoded(payload).None?
    ensures var w := Displayed(v, codec, me, Grammar.FromLine(sender, tag + payload), rnd, now, grace);
            && |w.shown| == |v.shown| + 1 && w == v.(shown := w.shown) && v.shown <= w.shown
            && w.shown[|v.shown|].Complaint? && w.shown[|v.shown|].sender == sender
  {
    Grammar.LinesSplitBack(sender, tag + payload);
    Grammar.TagSelects(payload);
    hide Grammar.Incoming, Grammar.Classify, Base64.Decoded;
  }

  // ------------------------------------- a client is a node of the two-party system

  /** The lines for the messages a node has put on its channel. */
  function LinesOf(codec: Codec, to: string, q: seq<Rotation.Flight>): seq<string> {
    seq(|q|, i requires 0 <= i < |q| => Grammar.MsgLine(to, Wire.TextOf(codec, q[i].msg)))
  }

  /** v and n know the same about the peer. */
  predicate Matches(v: View, name: string, n: Rotation.Node) {
    Lookup(v.peers, name) == n.peer
  }

  /** From v to w as from n to m: same entry, same lines for what was put on the channel, no other entry touched. */
  ghost predicate Follows(codec: Codec, v: View, w: View, name: string, n: Rotation.Node, m: Rotation.Node) {
    && Matches(w, name, m)
    && (forall k :: k != name ==> Lookup(w.peers, k) == Lookup(v.peers, k))
    && n.out <= m.out && w.sent == v.sent + LinesOf(codec, name, m.out[|n.out|..])
  }

  /** On the way from v to w a complaint was shown last. */
  predicate Complains(v: View, w: View) {
    |w.shown| > |v.shown| && w.shown[|w.shown| - 1].Complaint?
  }

  lemma FollowsSilently(codec: Codec, v: View, w: View, name: string, n: Rotation.Node, m: Rotation.Node)
    requires Matches(v, name, n) && Matches(w, name, m)
    requires w.peers == Keep(v.peers, name, m.peer) && w.sent == v.sent && m.out == n.out
    ensures Follows(codec, v, w, name, n, m)
  {
    assert m.out[|n.out|..] == [];
    assert LinesOf(codec, name, []) == [];
  }

  lemma FollowsWithLine(codec: Codec, v: View, w: View, name: string, n: Rotation.Node, m: Rotation.Node, f: Rotation.Flight)
    requires m.peer.Some? && w.peers == v.peers[name := m.peer.value]
    requires m.out == n.out + [f] && w.sent == v.sent + [Grammar.MsgLine(name, Wire.TextOf(codec, f.msg))]
    ensures Follows(codec, v, w, name, n, m)
  {
    assert m.out[|n.out|..] == [f];
    assert LinesOf(codec, name, [f]) == [Grammar.MsgLine(name, Wire.TextOf(codec, f.msg))];
  }

  lemma InitIsReceived(v: View, codec: Codec, me: string, sender: string, n: Rotation.Node, epoch: nat, pub: Bytes,
                       x: nat, now: int, t: Timing)
    requires Matches(v, sender, n) && Grammar.Username(sender) && epoch < TWO_32 && |pub| == Dh.MODULUS_BYTES
    ensures var w := Initiated(v, me, sender, KexText(epoch, pub), Some(x), now, t.grace);
            var m := Rotation.Received(n, Names.Less(me, sender), Rotation.Init(epoch, pub), x, now, t);
            Follows(codec, v, w, sender, n, m) && (m.failed > n.failed <==> Complains(v, w)) && m.refused == n.refused
  {
    KexRoundTrip(epoch, pub);
    var o := OnInitPeer(n.peer, Names.Less(me, sender), epoch, pub, Some(x), now, t.grace);
    KeptOnRefusal(n.peer, Names.Less(me, sender), epoch, pub, x, now, t.grace);
    hide *;
    if o.Answered? {
      InitAnsweredReceived(v, codec, me, sender, n, epoch, pub, x, now, t);
    } else {
      InitUnansweredReceived(v, codec, me, sender, n, epoch, pub, x, now, t);
    }
  }

  lemma InitAnsweredReceived(v: View, codec: Codec, me: string, sender: string, n: Rotation.Node, epoch: nat, pub: Bytes,
                             x: nat, now: int, t: Timing)
    requires Matches(v, sender, n) && Grammar.Username(sender) && epoch < TWO_32
    requires KexOf(KexText(epoch, pub)) == Some((epoch, pub))
    requires var o := OnInitPeer(n.peer, Names.Less(me, sender), epoch, pub, Some(x), now, t.grace);
             o.Answered? && |o.pub| == Dh.MODULUS_BYTES
    ensures var w := Initiated(v, me, sender, KexText(epoch, pub), Some(x), now, t.grace);
            var m := Rotation.Received(n, Names.Less(me, sender), Rotation.Init(epoch, pub), x, now, t);
            Follows(codec, v, w, sender, n, m) && m.failed == n.failed && !Complains(v, w) && m.refused == n.refused
  {
    var w := Initiated(v, me, sender, KexText(epoch, pub), Some(x), now, t.grace);
    var m := Rotation.Received(n, Names.Less(me, sender), Rotation.Init(epoch, pub), x, now, t);
    var o := OnInitPeer(n.peer, Names.Less(me, sender), epoch, pub, Some(x), now, t.grace);
    AnsweredView(v, me, sender, epoch, pub, x, now, t.grace);
    AnsweredNode(n, Names.Less(me, sender), epoch, pub, x, now, t);
    hide KexText, KexOf, Names.Less, Grammar.Username, OnInitPeer, Follows, Grammar.MsgLine, Initiated, Rotation.Received;
    FollowsWithLine(codec, v, w, sender, n, m, Rotation.Flight(Rotation.Ack(epoch, o.pub), n.idx + 1, now));
  }

  lemma AnsweredView(v: View, me: string, sender: string, epoch: nat, pub: Bytes, x: nat, now: int, grace: nat)
    requires Grammar.Username(sender) && epoch < TWO_32 && KexOf(KexText(epoch, pub)) == Some((epoch, pub))
    requires var o := OnInitPeer(Lookup(v.peers, sender), Names.Less(me, sender), epoch, pub, Some(x), now, grace);
             o.Answered? && |o.pub| == Dh.MODULUS_BYTES
    ensures var o := OnInitPeer(Lookup(v.peers, sender), Names.Less(me, sender), epoch, pub, Some(x), now, grace);
            && Initiated(v, me, sender, KexText(epoch, pub), Some(x), now, grace)
            == View(v.peers[sender := o.after], v.sent + [Grammar.MsgLine(sender, TAG_ACK + KexText(epoch, o.pub))],
                    v.shown + [Installed(Rekeyed(sender, epoch, o.after.cur.fp))])
  {
    var o := OnInitPeer(Lookup(v.peers, sender), Names.Less(me, sender), epoch, pub, Some(x), now, grace);
    Sizes.KexFits(epoch, o.pub, sender);
    hide KexText, KexOf, Names.Less, Grammar.Username, OnInitPeer, Grammar.MsgLine;
  }

  lemma AnsweredNode(n: Rotation.Node, amA: bool, epoch: nat, pub: Bytes, x: nat, now: int, t: Timing)
    requires OnInitPeer(n.peer, amA, epoch, pub, Some(x), now, t.grace).Answered?
    ensures var o := OnInitPeer(n.peer, amA, epoch, pub, Some(x), now, t.grace);
            && Rotation.Received(n, amA, Rotation.Init(epoch, pub), x, now, t)
            == n.(peer := Some(o.after), idx := n.idx + 1,
                  out := n.out + [Rotation.Flight(Rotation.Ack(epoch, o.pub), n.idx + 1, now)])
  {
    hide OnInitPeer;
  }

  lemma InitUnansweredReceived(v: View, codec: Codec, me: string, sender: string, n: Rotation.Node, epoch: nat, pub: Bytes,
                               x: nat, now: int, t: Timing)
    requires Matches(v, sender, n) && KexOf(KexText(epoch, pub)) == Some((epoch, pub))
    requires match OnInitPeer(n.peer, Names.Less(me, sender), epoch, pub, Some(x), now, t.grace)
             case Refused(_, kept) => kept.Some? <==> n.peer.Some?
             case Ignored => true
             case Answered(_, _) => false
    ensures var w := Initiated(v, me, sender, KexText(epoch, pub), Some(x), now, t.grace);
            var m := Rotation.Received(n, Names.Less(me, sender), Rotation.Init(epoch, pub), x, now, t);
            Follows(codec, v, w, sender, n, m) && (m.failed > n.failed <==> Complains(v, w)) && m.refused == n.refused
  {
    hide KexText, KexOf, Names.Less, OnInitPeer, Follows;
    FollowsSilently(codec, v, Initiated(v, me, sender, KexText(epoch, pub), Some(x), now, t.grace), sender, n,
                    Rotation.Received(n, Names.Less(me, sender), Rotation.Init(epoch, pub), x, now, t));
  }

  lemma KeptOnRefusal(p: Option<Peer>, amA: bool, epoch: nat, theirs: Bytes, x: nat, now: int, grace: nat)
    ensures match OnInitPeer(p, amA, epoch, theirs, Some(x), now, grace)
            case Refused(_, kept) => kept.Some? <==> p.Some?
            case Ignored => true
            case Answered(_, pub) => |pub| == Dh.MODULUS_BYTES
  {
    hide Derive, Dh.SharedSecret, Dh.PublicBytes;
  }

  lemma AckIsReceived(v: View, codec: Codec, me: string, sender: string, n: Rotation.Node, epoch: nat, pub: Bytes,
                      x: nat, now: int, t: Timing)
    requires Matches(v, sender, n) && epoch < TWO_32 && |pub| == Dh.MODULUS_BYTES
    ensures var w := Acknowledged(v, sender, KexText(epoch, pub), now, t.grace);
            var m := Rotation.Received(n, Names.Less(me, sender), Rotation.Ack(epoch, pub), x, now, t);
            Follows(codec, v, w, sender, n, m) && (m.failed > n.failed <==> Complains(v, w)) && m.refused == n.refused
  {
    KexRoundTrip(epoch, pub);
    hide KexText, KexOf, OnAckPeer, Names.Less, Follows;
    FollowsSilently(codec, v, Acknowledged(v, sender, KexText(epoch, pub), now, t.grace), sender, n,
                    Rotation.Received(n, Names.Less(me, sender), Rotation.Ack(epoch, pub), x, now, t));
  }

  lemma TextIsReceived(v: View, codec: Codec, me: string, sender: string, n: Rotation.Node, c: ChatPayload,
                       x: nat, now: int, t: Timing)
    requires Matches(v, sender, n)
    ensures var w := Opening(v, sender, c, now);
            var m := Rotation.Received(n, Names.Less(me, sender), Rotation.Text(c), x, now, t);
            && Follows(codec, v, w, sender, n, m) && (m.refused > n.refused <==> Complains(v, w)) && m.failed == n.failed
            && (m.refused == n.refused ==>
                  |m.got| == |n.got| + 1 && w.shown == v.shown + [Opened(sender, m.got[|n.got|])])
  {
    hide OpenPeer, Names.Less, Follows;
    FollowsSilently(codec, v, Opening(v, sender, c, now), sender, n,
                    Rotation.Received(n, Names.Less(me, sender), Rotation.Text(c), x, now, t));
  }

  /**
   * Displaying the line made of a message, key exchange or chat, does to the
   * entry, and sends, exactly what the two-party system says the receiver of
   * that message does; a complaint is shown exactly when that system counts a
   * failure or a refusal.
   */
  lemma DisplayIsReceived(v: View, codec: Codec, me: string, sender: string, n: Rotation.Node, msg: Rotation.Msg,
                          x: nat, now: int, t: Timing)
    requires Matches(v, sender, n) && Grammar.Username(sender) && Wire.Encodable(msg)
    requires msg.Text? ==> Carries(codec, msg.m.ct)
    ensures var w := Displayed(v, codec, me, Grammar.FromLine(sender, Wire.TextOf(codec, msg)), Some(x), now, t.grace);
            var m := Rotation.Received(n, Names.Less(me, sender), msg, x, now, t);
            && Follows(codec, v, w, sender, n, m)
            && (m.failed > n.failed || m.refused > n.refused <==> Complains(v, w))
            && (msg.Text? && m.refused == n.refused ==>
                  |m.got| == |n.got| + 1 && w.shown == v.shown + [Opened(sender, m.got[|n.got|])])
  {
    Grammar.UsernameHasNoSpace(sender);
    Grammar.LinesSplitBack(sender, Wire.TextOf(codec, msg));
    match msg
    case Init(epoch, pub) =>
      Grammar.TagSelects(KexText(epoch, pub));
      InitIsReceived(v, codec, me, sender, n, epoch, pub, x, now, t);
      hide Initiated, Follows, Rotation.Received, Grammar.Classify, KexText, Names.Less, Complains, Grammar.Incoming;
    case Ack(epoch, pub) =>
      Grammar.TagSelects(KexText(epoch, pub));
      AckIsReceived(v, codec, me, sender, n, epoch, pub, x, now, t);
      hide Acknowledged, Follows, Rotation.Received, Grammar.Classify, KexText, Names.Less, Complains, Grammar.Incoming;
    case Text(c) =>
      Grammar.TagSelects(ChatText(codec, c));
      ChatRoundTrip(codec, c);
      TextIsReceived(v, codec, me, sender, n, c, x, now, t);
      hide Opening, Follows, Rotation.Received, Grammar.Classify, ChatText, ChatOf, Names.Less, Complains, Grammar.Incoming;
  }

  /** Typing to a peer in session does what the two-party system says, for every text short enough. */
  lemma TypedIsSaid(v: View, codec: Codec, to: string, n: Rotation.Node, text: string, now: int)
    requires Matches(v, to, n) && InSession(v, to) && Grammar.Sendable(text) && Grammar.Username(to)
    requires |text| <= Sizes.LONGEST_TEXT
    requires var r := SealPeer(n.peer, text); r.Ok? ==> Carries(codec, r.value.1.ct)
    ensures var w := Typed(v, codec, to, text);
            var m := Rotation.Said(n, text, now);
            && Follows(codec, v, w, to, n, m) && m.sent == n.sent + [text]
            && w.shown == v.shown + [Echoed(to, text, true)]
  {
    var m := Rotation.Said(n, text, now);
    var r := SealPeer(n.peer, text);
    Sizes.ChatFits(codec, n.peer, text, to);
    hide NonceOf, Follows, ChatText, Grammar.MsgLine;
    FollowsWithLine(codec, v, Typed(v, codec, to, text), to, n, m, Rotation.Flight(Rotation.Text(r.value.1), n.idx, now));
  }

  /** Asking for a session does what the two-party system says. */
  lemma RequestIsStarted(v: View, codec: Codec, me: string, to: string, n: Rotation.Node, x: nat, now: int)
    requires Matches(v, to, n) && n.peer.None? && me != to && Grammar.Username(to)
    ensures Follows(codec, v, Requested(v, me, to, Some(x), now), to, n, Rotation.Started(n, Names.Less(me, to), x, now))
  {
    Sizes.KexFits(0, Dh.PublicBytes(x), to);
    assert to != "";
    hide KexText, Dh.PublicBytes, Names.Less, Grammar.Username, StartPeer, Follows, Grammar.MsgLine;
    var kp := Dh.Ephemeral(x, Dh.PublicBytes(x));
    FollowsWithLine(codec, v, Requested(v, me, to, Some(x), now), to, n, Rotation.Started(n, Names.Less(me, to), x, now),
                    Rotation.Flight(Rotation.Init(0, kp.pub), n.idx + 1, now));
  }

  // The timer passes over all peers at once; the texts to one of them are those of its node.

  /** The texts among the lines that are addressed to a name, in order. */
  function To(sent: seq<string>, name: string): seq<string> {
    if sent == [] then []
    else To(sent[..|sent| - 1], name) + Grammar.Addressed(sent[|sent| - 1], name)
  }

  function TextsOf(codec: Codec, q: seq<Rotation.Flight>): seq<string> {
    seq(|q|, i requires 0 <= i < |q| => Wire.TextOf(codec, q[i].msg))
  }

  function InitTexts(init: Option<(nat, Bytes)>): seq<string> {
    match init
    case None => []
    case Some((epoch, pub)) => [TAG_INIT + KexText(epoch, pub)]
  }

  /** The action that relays an INIT sends its line, addressed to its peer only. */
  lemma InitAdds(v: View, done: seq<Action>, k: string, init: Option<(nat, Bytes)>, name: string)
    requires ' ' !in k && (k == name ==> Grammar.Username(k))
    requires init.Some? ==> init.value.0 < TWO_32 && |init.value.1| == Dh.MODULUS_BYTES
    ensures var u := SentAll(v, done);
            var w := SentAll(v, done + Relay(k, init));
            && w.peers == u.peers
            && To(w.sent, name) == To(u.sent, name) + if k == name then InitTexts(init) else []
  {
    if init.Some? {
      OneMoreSent(v, done, Action(k, TAG_INIT + KexText(init.value.0, init.value.1)));
      if k == name {
        Sizes.KexFits(init.value.0, init.value.1, k);
      }
      hide KexText, Grammar.Username, Grammar.MsgLine, Grammar.Addressed, SentAll, To;
      var u := SentAll(v, done);
      SentTo(u, k, TAG_INIT + KexText(init.value.0, init.value.1), name);
    } else {
      assert done + [] == done;
    }
  }

  lemma OneMoreSent(v: View, done: seq<Action>, a: Action)
    ensures SentAll(v, done + [a]) == Sent(SentAll(v, done), Grammar.MsgLine(a.peer, a.payload))
  {
    hide Grammar.MsgLine, Sent;
    assert (done + [a])[..|done|] == done;
  }

  /** A line for one name adds nothing for another, and its text for its own if it is not too long. */
  lemma SentTo(v: View, to: string, text: string, name: string)
    requires ' ' !in to && (to == name ==> |Grammar.MsgLine(to, text)| <= MAX_PLAINTEXT)
    ensures var w := Sent(v, Grammar.MsgLine(to, text));
            w.peers == v.peers && To(w.sent, name) == To(v.sent, name) + if to == name then [text] else []
  {
    var line := Grammar.MsgLine(to, text);
    Grammar.ComposedIsAddressed(to, text, name);
    hide Grammar.MsgLine, Grammar.Addressed;
    assert (v.sent + [line])[..|v.sent|] == v.sent;
    assert To(v.sent, name) + [] == To(v.sent, name);
  }

  lemma ActionsOneMore(names: seq<string>, k: string, ps: map<string, Peer>, rnd: map<string, nat>, now: int, t: Timing)
    requires forall x :: x in names + [k] ==> x in ps
    ensures (forall x :: x in names ==> x in ps) && k in ps
    ensures Actions(names + [k], ps, rnd, now, t)
         == Actions(names, ps, rnd, now, t) + Relay(k, TickPeer(ps[k], Draw(rnd, k), now, t).1)
  {
    assert (names + [k])[..|names|] == names && k in names + [k];
    forall x | x in names ensures x in ps {
      assert x in names + [k];
    }
  }

  /** Among the timer's lines, those to `name` are its own INIT, if one is due. */
  ghost predicate TimerSends(v: View, names: seq<string>, ps: map<string, Peer>, rnd: map<string, nat>, now: int,
                             t: Timing, name: string)
  {
    && (forall k :: k in names ==> k in ps)
    && var w := SentAll(v, Actions(names, ps, rnd, now, t));
       && w.peers == v.peers
       && To(w.sent, name) == To(v.sent, name) +
          if name in names then InitTexts(TickPeer(ps[name], Draw(rnd, name), now, t).1) else []
  }

  lemma OneMoreTimed(v: View, names: seq<string>, k: string, ps: map<string, Peer>, rnd: map<string, nat>, now: int,
                     t: Timing, name: string)
    requires TimerSends(v, names, ps, rnd, now, t, name) && k !in names && k in ps
    requires ' ' !in k && (k == name ==> Grammar.Username(k))
    ensures TimerSends(v, names + [k], ps, rnd, now, t, name)
  {
    hide TickPeer, Actions, SentAll, To, InitTexts, Grammar.Username;
    ActionsOneMore(names, k, ps, rnd, now, t);
    InitIsEncodable(ps[k], Draw(rnd, k), now, t);
    InitAdds(v, Actions(names, ps, rnd, now, t), k, TickPeer(ps[k], Draw(rnd, k), now, t).1, name);
    if name == k {
      assert To(v.sent, name) + [] == To(v.sent, name);
    }
  }

  lemma NothingTimed(v: View, ps: map<string, Peer>, rnd: map<string, nat>, now: int, t: Timing, name: string)
    ensures TimerSends(v, [], ps, rnd, now, t, name)
  {
  }

  lemma {:induction false} TimerLines(v: View, names: seq<string>, ps: map<string, Peer>, rnd: map<string, nat>, now: int,
                                      t: Timing, name: string)
    requires Names.Ascending(names)
    requires forall k :: k in names ==> k in ps && ' ' !in k && (k == name ==> Grammar.Username(k))
    ensures TimerSends(v, names, ps, rnd, now, t, name)
  {
    hide TimerSends, Grammar.Username;
    if names == [] {
      NothingTimed(v, ps, rnd, now, t, name);
    } else {
      var i := |names| - 1;
      Names.AscendingDistinct(names, i);
      TimerLines(v, names[..i], ps, rnd, now, t, name);
      OneMoreTimed(v, names[..i], names[i], ps, rnd, now, t, name);
      assert names[..i] + [names[i]] == names;
    }
  }

  lemma InitIsEncodable(p: Peer, rnd: Option<nat>, now: int, t: Timing)
    ensures var init := TickPeer(p, rnd, now, t).1;
            init.Some? ==> init.value.0 < TWO_32 && |init.value.1| == Dh.MODULUS_BYTES
  {
  }

  /** For every peer, a pass of the timer does what the two-party system says. */
  lemma TimerIsTicked(v: View, codec: Codec, rnd: map<string, nat>, now: int, t: Timing, name: string, n: Rotation.Node)
    requires (forall k :: k in v.peers ==> ' ' !in k) && Grammar.Username(name)
    requires Matches(v, name, n)
    ensures var w := Timed(v, rnd, now, t);
            var m := Rotation.Ticked(n, Draw(rnd, name), now, t);
            && Matches(w, name, m) && n.out <= m.out
            && To(w.sent, name) == To(v.sent, name) + TextsOf(codec, m.out[|n.out|..])
  {
    var names := Names.Ordered(v.peers.Keys);
    hide TickAll, Actions, SentAll, To, TextsOf, Grammar.Username, Names.Ordered, Names.Ascending, Matches, Rotation.Ticked,
         TimerSends;
    TimerLines(v.(peers := TickAll(v.peers, rnd, now, t)), names, v.peers, rnd, now, t, name);
    TimerSent(v.(peers := TickAll(v.peers, rnd, now, t)), names, v.peers, rnd, now, t, name);
    TickedLookup(v.peers, rnd, now, t, name);
    TickTexts(codec, n, Draw(rnd, name), now, t);
    MatchesEntry(v, name, n);
    MatchesEntry(Timed(v, rnd, now, t), name, Rotation.Ticked(n, Draw(rnd, name), now, t));
  }

  lemma MatchesEntry(v: View, name: string, n: Rotation.Node)
    ensures Matches(v, name, n) <==> Lookup(v.peers, name) == n.peer
    ensures Lookup(v.peers, name) == if name in v.peers then Some(v.peers[name]) else None
  {
  }

  lemma TimerSent(v: View, names: seq<string>, ps: map<string, Peer>, rnd: map<string, nat>, now: int,
                  t: Timing, name: string)
    requires TimerSends(v, names, ps, rnd, now, t, name)
    ensures forall k :: k in names ==> k in ps
    ensures var w := SentAll(v, Actions(names, ps, rnd, now, t));
            && w.peers == v.peers
            && To(w.sent, name) == To(v.sent, name) +
               if name in names then InitTexts(TickPeer(ps[name], Draw(rnd, name), now, t).1) else []
  {
    hide TickPeer, Actions, SentAll, To, InitTexts;
  }

  lemma TickedLookup(ps: map<string, Peer>, rnd: map<string, nat>, now: int, t: Timing, name: string)
    ensures Lookup(TickAll(ps, rnd, now, t), name)
         == if name in ps then Some(TickPeer(ps[name], Draw(rnd, name), now, t).0) else None
  {
    hide TickPeer;
  }

  /** What a tick puts on the channel, as text. */
  lemma TickTexts(codec: Codec, n: Rotation.Node, rnd: Option<nat>, now: int, t: Timing)
    ensures var m := Rotation.Ticked(n, rnd, now, t);
            && n.out <= m.out
            && m.peer == (if n.peer.None? then None else Some(TickPeer(n.peer.value, rnd, now, t).0))
            && TextsOf(codec, m.out[|n.out|..])
            == if n.peer.None? then [] else InitTexts(TickPeer(n.peer.value, rnd, now, t).1)
  {
    hide TickPeer, KexText;
    var m := Rotation.Ticked(n, rnd, now, t);
    if m.out == n.out {
      assert m.out[|n.out|..] == [];
    } else {
      assert m.out[|n.out|..] == [m.out[|n.out|]];
    }
  }

  // ------------------------------------------------------- a text that is not sent

  /** The peer after sealing a row of texts, and what was sealed. */
  function SealedAll(p: Peer, texts: seq<string>): (r: (Peer, seq<ChatPayload>))
    requires p.state == State.Up
    ensures |r.1| == |texts|
    decreases |texts|
  {
    if texts == [] then (p, [])
    else
      var (q, m) := SealPeer(Some(p), texts[0]).value;
      var (z, rest) := SealedAll(q, texts[1..]);
      (z, [m] + rest)
  }

  /** The receiver holds the same epoch from the other side, and expects an earlier counter than the sender's next one. */
  predicate Behind(p: Peer, q: Peer) {
    && p.state == State.Up && q.state == State.Up && p.amA != q.amA
    && Rotation.Uncounted(p.cur) == Rotation.Uncounted(q.cur) && q.cur.rx < p.cur.tx < TWO_64
  }

  lemma BehindRefuses(p: Peer, q: Peer, text: string, now: int)
    requires Behind(p, q)
    ensures OpenPeer(Some(q), SealPeer(Some(p), text).value.1, now) == Err("E2E authentication failed")
  {
    hide NonceOf;
  }

  lemma {:induction false} AllRefused(p: Peer, q: Peer, texts: seq<string>, now: int, i: nat)
    requires Behind(p, q) && i < |texts| && p.cur.tx + |texts| <= TWO_64
    ensures OpenPeer(Some(q), SealedAll(p, texts).1[i], now) == Err("E2E authentication failed")
    decreases i
  {
    hide NonceOf, OpenPeer;
    if i == 0 {
      BehindRefuses(p, q, texts[0], now);
    } else {
      AllRefused(SealPeer(Some(p), texts[0]).value.0, q, texts[1..], now, i - 1);
    }
  }

  /**
   * A text whose encrypted line is too long spends a counter though nothing is
   * sent, and is shown as sent; whatever is typed after it in the same epoch is
   * refused by the peer, who expected that counter.
   */
  lemma UnsentStopsEpoch(v: View, codec: Codec, to: string, long: string, q: Peer, texts: seq<string>, now: int, i: nat)
    requires InSession(v, to) && Grammar.Sendable(long) && i < |texts|
    requires |Grammar.MsgLine(to, TAG_MSG + ChatText(codec, SealPeer(Lookup(v.peers, to), long).value.1))| > MAX_PLAINTEXT
    requires var p := v.peers[to];
             && q.state == State.Up && p.amA != q.amA && Rotation.Uncounted(p.cur) == Rotation.Uncounted(q.cur)
             && q.cur.rx == p.cur.tx && p.cur.tx + 1 + |texts| <= TWO_64
    ensures var w := Typed(v, codec, to, long);
            && w.sent == v.sent && w.shown == v.shown + [TooLong, Echoed(to, long, true)]
            && InSession(w, to)
            && OpenPeer(Some(q), SealedAll(w.peers[to], texts).1[i], now) == Err("E2E authentication failed")
  {
    var p := v.peers[to];
    InSessionEntry(v, to);
    BehindAfter(p, q, long);
    Unsent(v, codec, to, long);
    hide *;
    var z := SealPeer(Some(p), long).value.0;
    AllRefused(z, q, texts, now, i);
    InSessionEntry(Typed(v, codec, to, long), to);
  }

  lemma InSessionEntry(v: View, name: string)
    ensures InSession(v, name) <==> name in v.peers && v.peers[name].state == State.Up
    ensures name in v.peers ==> Lookup(v.peers, name) == Some(v.peers[name])
  {
  }

  lemma BehindAfter(p: Peer, q: Peer, text: string)
    requires p.state == State.Up && q.state == State.Up && p.amA != q.amA
    requires Rotation.Uncounted(p.cur) == Rotation.Uncounted(q.cur) && q.cur.rx == p.cur.tx && p.cur.tx + 1 < TWO_64
    ensures var z := SealPeer(Some(p), text).value.0;
            z.state == State.Up && z.cur.tx == p.cur.tx + 1 && Behind(z, q)
  {
    hide NonceOf;
  }

  lemma Unsent(v: View, codec: Codec, to: string, long: string)
    requires InSession(v, to) && Grammar.Sendable(long)
    requires |Grammar.MsgLine(to, TAG_MSG + ChatText(codec, SealPeer(Lookup(v.peers, to), long).value.1))| > MAX_PLAINTEXT
    ensures Typed(v, codec, to, long)
         == View(v.peers[to := SealPeer(Lookup(v.peers, to), long).value.0], v.sent,
                 v.shown + [TooLong, Echoed(to, long, true)])
  {
    hide NonceOf, ChatText, Grammar.MsgLine;
  }
}
