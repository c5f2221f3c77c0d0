/**
 * A whole client against one node of the two-party system: its entry, the
 * tagged texts it has sent to the peer, and what it has shown about the peer's
 * end-to-end messages stay in step with the node, whatever else the client does.
 */
module Mirror {
  import opened Wrappers
  import opened ByteStrings
  import opened Crypto
  import opened Protocol
  import opened E2e
  import opened Client
  import Dh
  import Grammar
  import Names
  import Rotation
  import Sizes
  import Wire

  // ------------------------------------------------------------------- accounts

  /** What was shown about one peer: texts opened, texts sent encrypted, and complaints. */
  datatype Account = Account(got: seq<string>, sent: seq<string>, complaints: nat)

  function Noted(a: Account, n: Notice, name: string): Account {
    match n
    case Opened(sender, text) => if sender == name then a.(got := a.got + [text]) else a
    case Echoed(to, text, encrypted) => if to == name && encrypted then a.(sent := a.sent + [text]) else a
    case Complaint(sender, _) => if sender == name then a.(complaints := a.complaints + 1) else a
    case _ => a
  }

  function AccountOf(shown: seq<Notice>, name: string): Account {
    if shown == [] then Account([], [], 0)
    else Noted(AccountOf(shown[..|shown| - 1], name), shown[|shown| - 1], name)
  }

  lemma AccountAppend(shown: seq<Notice>, n: Notice, name: string)
    ensures AccountOf(shown + [n], name) == Noted(AccountOf(shown, name), n, name)
  {
    assert (shown + [n])[..|shown|] == shown;
  }

  // ---------------------------------------------------------------- tagged texts

  /** The texts that a client does not show as plain chat. */
  function Tagged(q: seq<string>): seq<string> {
    if q == [] then []
    else Tagged(q[..|q| - 1]) + if Grammar.Classify(q[|q| - 1]).Plain? then [] else [q[|q| - 1]]
  }

  lemma TaggedAppend(q: seq<string>, text: string)
    ensures Tagged(q + [text]) == Tagged(q) + if Grammar.Classify(text).Plain? then [] else [text]
  {
    assert (q + [text])[..|q|] == q;
  }

  lemma {:induction false} TaggedConcat(q: seq<string>, r: seq<string>)
    ensures Tagged(q + r) == Tagged(q) + Tagged(r)
  {
    if r == [] {
      assert q + r == q;
    } else {
      hide *;
      var front, last := r[..|r| - 1], r[|r| - 1];
      assert front + [last] == r && q + front + [last] == q + r;
      TaggedConcat(q, front);
      TaggedAppend(q + front, last);
      TaggedAppend(front, last);
    }
  }

  lemma MessageIsTagged(codec: Codec, m: Rotation.Msg)
    ensures !Grammar.Classify(Wire.TextOf(codec, m)).Plain?
  {
    match m
    case Init(epoch, pub) => Grammar.TagSelects(KexText(epoch, pub));
    case Ack(epoch, pub) => Grammar.TagSelects(KexText(epoch, pub));
    case Text(c) => Grammar.TagSelects(if c.Chat? then ChatText(codec, c) else "");
  }

  lemma TextsLast(codec: Codec, q: seq<Rotation.Flight>)
    requires q != []
    ensures TextsOf(codec, q) == TextsOf(codec, q[..|q| - 1]) + [Wire.TextOf(codec, q[|q| - 1].msg)]
  {
    hide Wire.TextOf;
  }

  lemma {:induction false} TextsAreTagged(codec: Codec, q: seq<Rotation.Flight>)
    ensures Tagged(TextsOf(codec, q)) == TextsOf(codec, q)
  {
    hide Wire.TextOf, Grammar.Classify;
    if q == [] {
    } else {
      var front, last := q[..|q| - 1], q[|q| - 1];
      TextsLast(codec, q);
      TextsAreTagged(codec, front);
      MessageIsTagged(codec, last.msg);
      TaggedAppend(TextsOf(codec, front), Wire.TextOf(codec, last.msg));
    }
  }

  lemma ToAppend(sent: seq<string>, line: string, name: string)
    ensures To(sent + [line], name) == To(sent, name) + Grammar.Addressed(line, name)
  {
    assert (sent + [line])[..|sent|] == sent;
  }

  lemma LinesLast(codec: Codec, name: string, q: seq<Rotation.Flight>)
    requires q != []
    ensures LinesOf(codec, name, q)
         == LinesOf(codec, name, q[..|q| - 1]) + [Grammar.MsgLine(name, Wire.TextOf(codec, q[|q| - 1].msg))]
  {
    hide Wire.TextOf, Grammar.MsgLine;
  }

  lemma NoLines(codec: Codec, name: string)
    ensures LinesOf(codec, name, []) == [] && TextsOf(codec, []) == []
  {
  }

  /** The lines for a node's messages are addressed to its peer, texts unchanged. */
  lemma {:induction false} LinesAreAddressed(codec: Codec, sent: seq<string>, q: seq<Rotation.Flight>, name: string)
    requires ' ' !in name
    ensures To(sent + LinesOf(codec, name, q), name) == To(sent, name) + TextsOf(codec, q)
  {
    hide *;
    if q == [] {
      NoLines(codec, name);
      assert q == [] && sent + [] == sent && To(sent, name) + [] == To(sent, name);
    } else {
      var front, last := q[..|q| - 1], q[|q| - 1];
      var text := Wire.TextOf(codec, last.msg);
      TextsLast(codec, q);
      LinesLast(codec, name, q);
      LinesAreAddressed(codec, sent, front, name);
      ToAppend(sent + LinesOf(codec, name, front), Grammar.MsgLine(name, text), name);
      Grammar.ComposedIsAddressed(name, text, name);
      assert sent + LinesOf(codec, name, q) == sent + LinesOf(codec, name, front) + [Grammar.MsgLine(name, text)];
    }
  }

  // ---------------------------------------------------------------- the relation

  /** Lines sent fit a record, and peers are named by single words. */
  ghost predicate Sane(v: View) {
    (forall line :: line in v.sent ==> |line| <= MAX_PLAINTEXT) && (forall k :: k in v.peers ==> ' ' !in k)
  }

  /**
   * The client's entry for the peer is the node's; the tagged texts it has sent
   * to the peer are those `gone` from the node's channel and then those still in
   * it; what it has shown about the peer is what the node has counted.
   */
  ghost predicate Mirrors(codec: Codec, v: View, name: string, n: Rotation.Node, gone: seq<string>) {
    && Sane(v) && Matches(v, name, n)
    && Tagged(To(v.sent, name)) == gone + TextsOf(codec, n.out)
    && AccountOf(v.shown, name) == Account(n.got, n.sent, n.failed + n.refused)
  }

  /** Nothing about the peer changed, though lines may have been sent and notices shown. */
  ghost predicate Aside(v: View, w: View, name: string) {
    && Sane(w) && v.sent <= w.sent && Lookup(w.peers, name) == Lookup(v.peers, name)
    && Tagged(To(w.sent, name)) == Tagged(To(v.sent, name)) && AccountOf(w.shown, name) == AccountOf(v.shown, name)
  }

  lemma AsideMirrors(codec: Codec, v: View, w: View, name: string, n: Rotation.Node, gone: seq<string>)
    requires Mirrors(codec, v, name, n, gone) && Aside(v, w, name)
    ensures Mirrors(codec, w, name, n, gone) && v.sent <= w.sent
  {
    hide Sane;
  }

  lemma AsideTwice(u: View, v: View, w: View, name: string)
    requires Aside(u, v, name) && Aside(v, w, name)
    ensures Aside(u, w, name)
  {
    hide Sane;
  }

  /** A line to another peer, or of plain chat. */
  lemma SentAside(v: View, to: string, text: string, name: string)
    requires Sane(v) && ' ' !in to && (to != name || Grammar.Classify(text).Plain?)
    ensures Aside(v, Sent(v, Grammar.MsgLine(to, text)), name)
  {
    hide Grammar.Addressed, Grammar.MsgLine, Grammar.Classify, To, Tagged, AccountOf;
    var line := Grammar.MsgLine(to, text);
    if |line| > MAX_PLAINTEXT {
      AccountAppend(v.shown, TooLong, name);
    } else {
      ToAppend(v.sent, line, name);
      TaggedTo(v.sent, to, text, name);
    }
  }

  lemma TaggedTo(sent: seq<string>, to: string, text: string, name: string)
    requires ' ' !in to && (to != name || Grammar.Classify(text).Plain?)
    ensures Tagged(To(sent + [Grammar.MsgLine(to, text)], name)) == Tagged(To(sent, name))
  {
    hide *;
    Grammar.ComposedIsAddressed(to, text, name);
    ToAppend(sent, Grammar.MsgLine(to, text), name);
    TaggedAppend(To(sent, name), text);
    assert To(sent, name) + [] == To(sent, name) && Tagged(To(sent, name)) + [] == Tagged(To(sent, name));
  }

  /** A notice that is not about the peer's end-to-end messages. */
  predicate Silent(n: Notice, name: string) {
    match n
    case Opened(sender, _) => sender != name
    case Echoed(to, _, encrypted) => !encrypted || to != name
    case Complaint(sender, _) => sender != name
    case _ => true
  }

  lemma ShowAside(v: View, n: Notice, name: string)
    requires Sane(v) && Silent(n, name)
    ensures Aside(v, Show(v, n), name)
  {
    AccountAppend(v.shown, n, name);
    hide Tagged, To, AccountOf;
  }

  lemma PeerAside(v: View, to: string, p: Peer, name: string)
    requires Sane(v) && ' ' !in to && to != name
    ensures Aside(v, v.(peers := v.peers[to := p]), name)
  {
    hide Tagged, To, AccountOf;
  }

  lemma SameAside(v: View, name: string)
    requires Sane(v)
    ensures Aside(v, v, name)
  {
  }

  /** An entry for somebody else may be set, a line sent to them or plain chat sent, and a notice shown. */
  lemma DoneAside(v: View, p: Option<Peer>, to: string, text: Option<string>, n: Option<Notice>, name: string)
    requires Sane(v) && ' ' !in to
    requires (p.Some? ==> to != name) && (text.Some? ==> to != name || Grammar.Classify(text.value).Plain?)
    requires n.Some? ==> Silent(n.value, name)
    ensures var u := v.(peers := Keep(v.peers, to, p));
            var s := if text.Some? then Sent(u, Grammar.MsgLine(to, text.value)) else u;
            Aside(v, if n.Some? then Show(s, n.value) else s, name)
  {
    SameAside(v, name);
    if p.Some? {
      PeerAside(v, to, p.value, name);
    }
    var u := v.(peers := Keep(v.peers, to, p));
    if text.Some? {
      SentAside(u, to, text.value, name);
    }
    var s := if text.Some? then Sent(u, Grammar.MsgLine(to, text.value)) else u;
    assert Aside(v, s, name) by {
      if text.Some? {
        AsideTwice(v, u, s, name);
      }
    }
    if n.Some? {
      ShowAside(s, n.value, name);
      AsideTwice(v, s, Show(s, n.value), name);
    }
  }

  // --------------------------------------------------- what does not concern the peer

  /** Typing to somebody else, or to a peer without a session. */
  lemma TypedAside(v: View, codec: Codec, to: string, text: string, name: string)
    requires Sane(v) && ' ' !in to && !(to == name && InSession(v, to))
    ensures Aside(v, Typed(v, codec, to, text), name)
  {
    hide Aside, Sane, Sent, NonceOf, ChatText, Grammar.Classify, Grammar.MsgLine;
    if !Grammar.Sendable(text) {
      DoneAside(v, None, to, None, Some(Reserved), name);
    } else if InSession(v, to) {
      match SealPeer(Lookup(v.peers, to), text)
      case Err(e) => DoneAside(v, None, to, None, Some(Complaint(to, e)), name);
      case Ok((p, m)) =>
        DoneAside(v, Some(p), to, Some(TAG_MSG + ChatText(codec, m)), Some(Echoed(to, text, true)), name);
    } else {
      Grammar.SendableIsPlain(text);
      DoneAside(v, None, to, Some(text), Some(Echoed(to, text, false)), name);
    }
  }

  /** A reserved text is not sent. */
  lemma ReservedAside(v: View, codec: Codec, to: string, text: string, name: string)
    requires Sane(v) && ' ' !in to && !Grammar.Sendable(text)
    ensures Aside(v, Typed(v, codec, to, text), name)
  {
    hide Aside, Sane, Sent, SealPeer, ChatText;
    DoneAside(v, None, to, None, Some(Reserved), name);
  }

  /** Asking somebody else for a session. */
  lemma RequestedAside(v: View, me: string, to: string, x: nat, now: int, name: string)
    requires Sane(v) && ' ' !in to && to != name
    ensures Aside(v, Requested(v, me, to, Some(x), now), name)
  {
    hide Aside, Sane, Sent, KexText, Dh.PublicBytes, Names.Less, StartPeer, Grammar.MsgLine;
    var kp := Dh.Ephemeral(x, Dh.PublicBytes(x));
    if to == "" {
      DoneAside(v, None, to, None, Some(Usage), name);
    } else if me == to {
      DoneAside(v, None, to, None, Some(Complaint(to, "cannot E2E with yourself")), name);
    } else {
      DoneAside(v, Some(StartPeer(Names.Less(me, to), kp, now)), to, Some(TAG_INIT + KexText(0, kp.pub)),
                Some(Requesting(to)), name);
    }
  }

  /** A text from somebody else, or of plain chat. */
  lemma SpokenAside(v: View, codec: Codec, me: string, sender: string, text: string, x: nat, now: int, grace: nat,
                    name: string)
    requires Sane(v) && ' ' !in sender && (sender != name || Grammar.Classify(text).Plain?)
    ensures Aside(v, Spoken(v, codec, me, sender, text, Some(x), now, grace), name)
  {
    hide Aside, Sane, Sent, Initiated, Acknowledged, Opening, ChatOf;
    match Grammar.Classify(text)
    case ToInit(p) => InitiatedAside(v, me, sender, p, x, now, grace, name);
    case ToAck(p) => AcknowledgedAside(v, sender, p, now, grace, name);
    case ToChat(p) => OpeningAside(v, sender, ChatOf(codec, p), now, name);
    case Plain(chat) => DoneAside(v, None, sender, None, Some(Heard(sender, chat, InSession(v, sender))), name);
  }

  lemma InitiatedAside(v: View, me: string, sender: string, payload: string, x: nat, now: int, grace: nat, name: string)
    requires Sane(v) && ' ' !in sender && sender != name
    ensures Aside(v, Initiated(v, me, sender, payload, Some(x), now, grace), name)
  {
    hide Aside, Sane, Sent, OnInitPeer, KexOf, KexText, Names.Less, Grammar.MsgLine;
    match KexOf(payload)
    case None => DoneAside(v, None, sender, None, Some(Complaint(sender, "bad E2E init")), name);
    case Some((epoch, theirs)) =>
      match OnInitPeer(Lookup(v.peers, sender), Names.Less(me, sender), epoch, theirs, Some(x), now, grace)
      case Refused(e, kept) => DoneAside(v, kept, sender, None, Some(Complaint(sender, e)), name);
      case Ignored => SameAside(v, name);
      case Answered(p, pub) =>
        DoneAside(v, Some(p), sender, Some(TAG_ACK + KexText(epoch, pub)), Some(Installed(Rekeyed(sender, epoch, p.cur.fp))),
                  name);
  }

  lemma AcknowledgedAside(v: View, sender: string, payload: string, now: int, grace: nat, name: string)
    requires Sane(v) && ' ' !in sender && sender != name
    ensures Aside(v, Acknowledged(v, sender, payload, now, grace), name)
  {
    hide Aside, Sane, OnAckPeer, KexOf;
    match OnAckPeer(Lookup(v.peers, sender), KexOf(payload), now, grace)
    case Err(e) => DoneAside(v, None, sender, None, Some(Complaint(sender, e)), name);
    case Ok(p) => DoneAside(v, Some(p), sender, None, Some(Installed(Rekeyed(sender, p.cur.n, p.cur.fp))), name);
  }

  lemma OpeningAside(v: View, sender: string, m: ChatPayload, now: int, name: string)
    requires Sane(v) && ' ' !in sender && sender != name
    ensures Aside(v, Opening(v, sender, m, now), name)
  {
    hide Aside, Sane, OpenPeer;
    match OpenPeer(Lookup(v.peers, sender), m, now)
    case Err(e) => DoneAside(v, None, sender, None, Some(Complaint(sender, e)), name);
    case Ok((p, text)) => DoneAside(v, Some(p), sender, None, Some(Opened(sender, text)), name);
  }

  /** A line that is no message, or one from somebody else, or plain chat. */
  lemma DisplayedAside(v: View, codec: Codec, me: string, line: string, x: nat, now: int, grace: nat, name: string)
    requires Sane(v)
    requires match Grammar.Incoming(line)
             case Some((sender, text)) => sender != name || Grammar.Classify(text).Plain?
             case None => true
    ensures Aside(v, Displayed(v, codec, me, line, Some(x), now, grace), name)
  {
    hide Aside, Sane, Spoken, Grammar.Classify, Grammar.Verb, Grammar.Arguments;
    match Grammar.Incoming(line)
    case Some((sender, text)) =>
      SenderIsWord(line);
      SpokenAside(v, codec, me, sender, text, x, now, grace, name);
    case None => ShowAside(v, Printed(line), name);
  }

  lemma SenderIsWord(line: string)
    ensures Grammar.Incoming(line).Some? ==> ' ' !in Grammar.Incoming(line).value.0
  {
    VerbIsWord(Grammar.Arguments(line));
    hide Grammar.Verb, Grammar.Arguments;
  }

  lemma VerbIsWord(line: string)
    ensures ' ' !in Grammar.Verb(line)
  {
    Grammar.SplitJoins(line, ' ', 2);
  }

  // -------------------------------------------------------- what the node does too

  /** Texts that the node put on its channel were sent as well, and what was shown agrees with its new counts. */
  lemma GrowsMirrors(codec: Codec, v: View, w: View, name: string, n: Rotation.Node, m: Rotation.Node, gone: seq<string>)
    requires Mirrors(codec, v, name, n, gone)
    requires Sane(w) && Matches(w, name, m) && AccountOf(w.shown, name) == Account(m.got, m.sent, m.failed + m.refused)
    requires n.out <= m.out && To(w.sent, name) == To(v.sent, name) + TextsOf(codec, m.out[|n.out|..])
    ensures Mirrors(codec, w, name, m, gone)
  {
    hide Sane, Tagged, To, AccountOf, Wire.TextOf;
    var q := m.out[|n.out|..];
    TaggedConcat(To(v.sent, name), TextsOf(codec, q));
    TextsAreTagged(codec, q);
    assert m.out == n.out + q;
    assert TextsOf(codec, m.out) == TextsOf(codec, n.out) + TextsOf(codec, q);
  }

  lemma FollowsMirrors(codec: Codec, v: View, w: View, name: string, n: Rotation.Node, m: Rotation.Node, gone: seq<string>)
    requires Mirrors(codec, v, name, n, gone) && Follows(codec, v, w, name, n, m) && ' ' !in name
    requires Sane(w) && AccountOf(w.shown, name) == Account(m.got, m.sent, m.failed + m.refused)
    ensures Mirrors(codec, w, name, m, gone) && v.sent <= w.sent
  {
    hide Sane, Tagged, To, AccountOf, LinesOf, TextsOf, Mirrors;
    LinesAreAddressed(codec, v.sent, m.out[|n.out|..], name);
    GrowsMirrors(codec, v, w, name, n, m, gone);
  }

  /** Typing to the peer in session. */
  lemma TypedMirrors(codec: Codec, v: View, name: string, n: Rotation.Node, gone: seq<string>, text: string, now: int)
    requires Mirrors(codec, v, name, n, gone) && InSession(v, name) && Grammar.Sendable(text) && Grammar.Username(name)
    requires |text| <= Sizes.LONGEST_TEXT
    requires var r := SealPeer(n.peer, text); r.Ok? ==> Carries(codec, r.value.1.ct)
    ensures var w := Typed(v, codec, name, text);
            Mirrors(codec, w, name, Rotation.Said(n, text, now), gone) && v.sent <= w.sent
  {
    hide Typed, Rotation.Said, Follows, Sane, Tagged, To, AccountOf, Grammar.Username, Grammar.Sendable, SealPeer, Carries;
    Grammar.UsernameHasNoSpace(name);
    TypedIsSaid(v, codec, name, n, text, now);
    AccountAppend(v.shown, Echoed(name, text, true), name);
    TypedSane(v, codec, name, text);
    SaidCounts(n, text, now);
    FollowsMirrors(codec, v, Typed(v, codec, name, text), name, n, Rotation.Said(n, text, now), gone);
  }

  lemma TypedSane(v: View, codec: Codec, to: string, text: string)
    requires Sane(v) && ' ' !in to
    ensures Sane(Typed(v, codec, to, text))
  {
    hide SealPeer, ChatText, Grammar.MsgLine;
  }

  lemma SaidCounts(n: Rotation.Node, text: string, now: int)
    ensures var m := Rotation.Said(n, text, now); m.got == n.got && m.failed == n.failed && m.refused == n.refused
  {
    hide SealPeer;
  }

  /** Asking the peer for a session. */
  lemma RequestedMirrors(codec: Codec, v: View, me: string, name: string, n: Rotation.Node, gone: seq<string>, x: nat,
                         now: int)
    requires Mirrors(codec, v, name, n, gone) && n.peer.None? && me != name && Grammar.Username(name)
    ensures var w := Requested(v, me, name, Some(x), now);
            Mirrors(codec, w, name, Rotation.Started(n, Names.Less(me, name), x, now), gone) && v.sent <= w.sent
  {
    hide Requested, Follows, Sane, Tagged, To, AccountOf, Grammar.Username, Names.Less, StartPeer, Dh.PublicBytes;
    RequestIsStarted(v, codec, me, name, n, x, now);
    Grammar.UsernameHasNoSpace(name);
    RequestedShows(v, me, name, x, now);
    FollowsMirrors(codec, v, Requested(v, me, name, Some(x), now), name, n,
                   Rotation.Started(n, Names.Less(me, name), x, now), gone);
  }

  lemma RequestedShows(v: View, me: string, to: string, x: nat, now: int)
    requires Sane(v) && me != to && ' ' !in to
    ensures var w := Requested(v, me, to, Some(x), now); Sane(w) && AccountOf(w.shown, to) == AccountOf(v.shown, to)
  {
    hide KexText, Names.Less, StartPeer, Grammar.MsgLine, AccountOf, Dh.PublicBytes;
    var kp := Dh.Ephemeral(x, Dh.PublicBytes(x));
    var line := Grammar.MsgLine(to, TAG_INIT + KexText(0, kp.pub));
    var s := if |line| > MAX_PLAINTEXT then v.shown + [TooLong] else v.shown;
    AccountAppend(v.shown, Usage, to);
    AccountAppend(v.shown, TooLong, to);
    AccountAppend(s, Requesting(to), to);
  }

  /** A pass of the timer. */
  lemma TimedMirrors(codec: Codec, v: View, name: string, n: Rotation.Node, gone: seq<string>, rnd: map<string, nat>,
                     now: int, t: Timing)
    requires Mirrors(codec, v, name, n, gone) && Grammar.Username(name)
    ensures var w := Timed(v, rnd, now, t);
            Mirrors(codec, w, name, Rotation.Ticked(n, Draw(rnd, name), now, t), gone) && v.sent <= w.sent
  {
    hide Tagged, To, AccountOf, Grammar.Username, TickAll, Inits, SentAll, Rotation.Ticked;
    TimerIsTicked(v, codec, rnd, now, t, name, n);
    TickedSane(v, rnd, now, t);
    SentAllShows(v.(peers := TickAll(v.peers, rnd, now, t)), Inits(v.peers, rnd, now, t), name);
    TickedCounts(n, Draw(rnd, name), now, t);
    hide Sane;
    GrowsMirrors(codec, v, Timed(v, rnd, now, t), name, n, Rotation.Ticked(n, Draw(rnd, name), now, t), gone);
  }

  lemma TickedSane(v: View, rnd: map<string, nat>, now: int, t: Timing)
    requires Sane(v)
    ensures Sane(v.(peers := TickAll(v.peers, rnd, now, t)))
  {
    hide TickPeer;
  }

  lemma TickedCounts(n: Rotation.Node, rnd: Option<nat>, now: int, t: Timing)
    ensures var m := Rotation.Ticked(n, rnd, now, t);
            m.got == n.got && m.sent == n.sent && m.failed == n.failed && m.refused == n.refused
  {
    hide TickPeer;
  }

  /** Relaying the timer's lines shows nothing about a peer. */
  lemma {:induction false} SentAllShows(v: View, actions: seq<Action>, name: string)
    requires Sane(v)
    ensures var w := SentAll(v, actions);
            Sane(w) && v.sent <= w.sent && AccountOf(w.shown, name) == AccountOf(v.shown, name)
  {
    hide Grammar.MsgLine, AccountOf;
    if actions == [] {
    } else {
      var k := |actions| - 1;
      SentAllShows(v, actions[..k], name);
      AccountAppend(SentAll(v, actions[..k]).shown, TooLong, name);
    }
  }

  /** Displaying a tagged text from the peer shows one complaint about it, or what its handler says. */
  lemma SpokenShows(v: View, codec: Codec, me: string, sender: string, text: string, x: nat, now: int, grace: nat)
    requires Sane(v) && ' ' !in sender && !Grammar.Classify(text).Plain?
    ensures var w := Spoken(v, codec, me, sender, text, Some(x), now, grace);
            && Sane(w)
            && (Complains(v, w) || !Grammar.Classify(text).ToChat? ==> ShowsOne(v, w, sender))
  {
    hide AccountOf, Initiated, Acknowledged, Opening, ChatOf, Complains, Sane;
    match Grammar.Classify(text)
    case ToInit(p) => InitiatedShows(v, me, sender, p, x, now, grace);
    case ToAck(p) => AcknowledgedShows(v, sender, p, now, grace);
    case ToChat(p) => OpeningShows(v, sender, ChatOf(codec, p), now);
  }

  /** What was shown on the way from v to w: one complaint about the sender, or nothing that counts. */
  ghost predicate ShowsOne(v: View, w: View, sender: string) {
    var a, b := AccountOf(v.shown, sender), AccountOf(w.shown, sender);
    Sane(w) && b == if Complains(v, w) then a.(complaints := a.complaints + 1) else a
  }

  lemma InitiatedShows(v: View, me: string, sender: string, payload: string, x: nat, now: int, grace: nat)
    requires Sane(v) && ' ' !in sender
    ensures ShowsOne(v, Initiated(v, me, sender, payload, Some(x), now, grace), sender)
  {
    hide AccountOf, OnInitPeer, KexOf, KexText, Names.Less, Grammar.MsgLine;
    match KexOf(payload)
    case None => AccountAppend(v.shown, Complaint(sender, "bad E2E init"), sender);
    case Some((epoch, theirs)) =>
      match OnInitPeer(Lookup(v.peers, sender), Names.Less(me, sender), epoch, theirs, Some(x), now, grace)
      case Refused(e, _) => AccountAppend(v.shown, Complaint(sender, e), sender);
      case Ignored =>
      case Answered(p, pub) =>
        var line := Grammar.MsgLine(sender, TAG_ACK + KexText(epoch, pub));
        var s := if |line| > MAX_PLAINTEXT then v.shown + [TooLong] else v.shown;
        AccountAppend(v.shown, TooLong, sender);
        AccountAppend(s, Installed(Rekeyed(sender, epoch, p.cur.fp)), sender);
  }

  lemma AcknowledgedShows(v: View, sender: string, payload: string, now: int, grace: nat)
    requires Sane(v) && ' ' !in sender
    ensures ShowsOne(v, Acknowledged(v, sender, payload, now, grace), sender)
  {
    hide AccountOf, OnAckPeer, KexOf;
    match OnAckPeer(Lookup(v.peers, sender), KexOf(payload), now, grace)
    case Err(e) => AccountAppend(v.shown, Complaint(sender, e), sender);
    case Ok(p) => AccountAppend(v.shown, Installed(Rekeyed(sender, p.cur.n, p.cur.fp)), sender);
  }

  lemma OpeningShows(v: View, sender: string, m: ChatPayload, now: int)
    requires Sane(v) && ' ' !in sender
    ensures var w := Opening(v, sender, m, now);
            Sane(w) && (Complains(v, w) ==> ShowsOne(v, w, sender))
  {
    hide AccountOf, OpenPeer;
    match OpenPeer(Lookup(v.peers, sender), m, now)
    case Err(e) => AccountAppend(v.shown, Complaint(sender, e), sender);
    case Ok((p, text)) =>
  }

  /** Displaying a message of the peer's node. */
  lemma DisplayedMirrors(codec: Codec, v: View, me: string, name: string, n: Rotation.Node, gone: seq<string>, line: string,
                         msg: Rotation.Msg, x: nat, now: int, t: Timing)
    requires Mirrors(codec, v, name, n, gone) && Grammar.Username(name) && Wire.Encodable(msg)
    requires msg.Text? ==> Carries(codec, msg.m.ct)
    requires Grammar.Incoming(line) == Some((name, Wire.TextOf(codec, msg)))
    ensures var w := Displayed(v, codec, me, line, Some(x), now, t.grace);
            Mirrors(codec, w, name, Rotation.Received(n, Names.Less(me, name), msg, x, now, t), gone) && v.sent <= w.sent
  {
    hide Tagged, To, AccountOf, Grammar.Username, Names.Less, Rotation.Received, Spoken, Wire.TextOf, Wire.Encodable,
         Grammar.Classify, Carries, Complains, Follows, Sane, Grammar.Incoming;
    var text := Wire.TextOf(codec, msg);
    Grammar.UsernameHasNoSpace(name);
    Grammar.LinesSplitBack(name, text);
    DisplayIsReceived(v, codec, me, name, n, msg, x, now, t);
    MessageIsTagged(codec, msg);
    ChatIsChat(codec, msg);
    SpokenShows(v, codec, me, name, text, x, now, t.grace);
    ReceivedCounts(n, Names.Less(me, name), msg, x, now, t);
    var w := Displayed(v, codec, me, line, Some(x), now, t.grace);
    var m := Rotation.Received(n, Names.Less(me, name), msg, x, now, t);
    if msg.Text? && m.refused == n.refused {
      AccountAppend(v.shown, Opened(name, m.got[|n.got|]), name);
    }
    FollowsMirrors(codec, v, w, name, n, m, gone);
  }

  lemma ChatIsChat(codec: Codec, msg: Rotation.Msg)
    ensures Grammar.Classify(Wire.TextOf(codec, msg)).ToChat? <==> msg.Text?
  {
    match msg
    case Init(epoch, pub) => Grammar.TagSelects(KexText(epoch, pub));
    case Ack(epoch, pub) => Grammar.TagSelects(KexText(epoch, pub));
    case Text(c) => Grammar.TagSelects(if c.Chat? then ChatText(codec, c) else "");
  }

  /** A message counts at most one failure or refusal, and only an opened text is added. */
  lemma ReceivedCounts(n: Rotation.Node, amA: bool, msg: Rotation.Msg, x: nat, now: int, t: Timing)
    ensures var m := Rotation.Received(n, amA, msg, x, now, t);
            && m.sent == n.sent
            && m.failed + m.refused
               == n.failed + n.refused + (if m.failed > n.failed || m.refused > n.refused then 1 else 0)
            && (if msg.Text? && m.refused == n.refused then |m.got| == |n.got| + 1 && m.got == n.got + [m.got[|n.got|]]
                                                            && m.failed == n.failed
                else m.got == n.got)
  {
    hide OnInitPeer, OnAckPeer, OpenPeer;
  }
}
