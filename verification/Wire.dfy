/**
 * Every message of a rotation, key exchange or chat, turned into the line a
 * client sends, crosses the relay and is read back as what it was.
 */
module Wire {
  import opened Wrappers
  import opened ByteStrings
  import opened Crypto
  import opened Protocol
  import opened E2e
  import opened Rotation
  import opened Grammar
  import Dh
  import Sizes

  /** The fields have the widths the payloads give them. */
  predicate Encodable(m: Msg) {
    match m
    case Text(c) => c.Chat? && c.epoch < TWO_32 && c.ct.Length() >= TAG_LEN
    case _ => m.epoch < TWO_32 && |m.pub| == Dh.MODULUS_BYTES
  }

  predicate AllEncodable(n: Node) {
    && (forall i :: 0 <= i < |n.out| ==> Encodable(n.out[i].msg))
    && (n.peer.Some? ==> n.peer.value.cur.n < TWO_32 && n.peer.value.nextEpoch < TWO_32)
  }

  lemma ReceivedEncodable(n: Node, amA: bool, msg: Msg, x: nat, now: int, t: Timing)
    requires AllEncodable(n) && Encodable(msg)
    ensures AllEncodable(Received(n, amA, msg, x, now, t))
  {
    hide Dh.SharedSecret, Dh.ValidPublic, OpenUnder, NonceOf;
    if msg.Init? || msg.Ack? {
      DerivedNumber(msg.epoch);
      hide Derive, OpenPeer;
    }
  }

  lemma DerivedNumber(n: nat)
    ensures forall z :: Derive(n, z).n == n
  {
  }

  lemma StartedEncodable(n: Node, amA: bool, x: nat, now: int)
    requires AllEncodable(n)
    ensures AllEncodable(Started(n, amA, x, now))
  {
  }

  lemma TickedEncodable(n: Node, rnd: Option<nat>, now: int, t: Timing)
    requires AllEncodable(n)
    ensures AllEncodable(Ticked(n, rnd, now, t))
  {
  }

  lemma SaidEncodable(n: Node, text: string, now: int)
    requires AllEncodable(n)
    ensures AllEncodable(Said(n, text, now))
  {
    hide NonceOf;
  }

  lemma StepEncodable(s: Sys, step: Step, t: Timing)
    requires AllEncodable(s.a) && AllEncodable(s.b)
    ensures AllEncodable(Next(s, step, t).a) && AllEncodable(Next(s, step, t).b)
  {
    hide Started, Ticked, Said, Received, Encodable, Recorded;
    match step
    case Start(side, x) => StartedEncodable(At(s, side), side == A, x, s.now);
    case Tick(side, rnd) => TickedEncodable(At(s, side), rnd, s.now, t);
    case Say(side, text) => SaidEncodable(At(s, side), text, s.now);
    case Deliver(side, x) =>
      var from := At(s, Other(side));
      if from.out != [] {
        ReceivedEncodable(At(s, side), side == A, from.out[0].msg, x, s.now, t);
      }
    case Wait(_) =>
  }

  lemma {:induction false} RunEncodable(s: Sys, steps: seq<Step>, t: Timing)
    requires AllEncodable(s.a) && AllEncodable(s.b)
    ensures AllEncodable(Run(s, steps, t).a) && AllEncodable(Run(s, steps, t).b)
    decreases |steps|
  {
    hide AllEncodable, Next;
    if steps == [] {
    } else {
      StepEncodable(s, steps[0], t);
      RunEncodable(Next(s, steps[0], t), steps[1..], t);
    }
  }

  /** The text a client sends for a message. */
  function TextOf(codec: Codec, m: Msg): string {
    match m
    case Init(epoch, pub) => TAG_INIT + KexText(epoch, pub)
    case Ack(epoch, pub) => TAG_ACK + KexText(epoch, pub)
    case Text(c) => TAG_MSG + if c.Chat? then ChatText(codec, c) else ""
  }

  /** The message a client makes of the text of a FROM line. */
  function MsgOf(codec: Codec, text: string): Option<Msg> {
    match Classify(text)
    case ToInit(p) => if KexOf(p).Some? then Some(Init(KexOf(p).value.0, KexOf(p).value.1)) else None
    case ToAck(p) => if KexOf(p).Some? then Some(Ack(KexOf(p).value.0, KexOf(p).value.1)) else None
    case ToChat(p) => Some(Text(ChatOf(codec, p)))
    case Plain(_) => None
  }

  /** A message is read back as itself; a chat message if the layout carries its ciphertext. */
  lemma MessageBack(codec: Codec, m: Msg)
    requires Encodable(m) && (m.Text? ==> Carries(codec, m.m.ct))
    ensures MsgOf(codec, TextOf(codec, m)) == Some(m)
  {
    match m
    case Text(c) =>
      TagSelects(ChatText(codec, c));
      ChatRoundTrip(codec, c);
      hide ChatText, ChatOf, Classify;
    case Init(epoch, pub) =>
      KexReachesHandler(epoch, pub);
      hide KexText, KexOf, Classify;
    case Ack(epoch, pub) =>
      KexReachesHandler(epoch, pub);
      hide KexText, KexOf, Classify;
  }

  /** Short enough to be sent: always for key exchange, and up to 6088 octets of text. */
  lemma MessageFits(codec: Codec, m: Msg, to: string)
    requires Encodable(m) && (m.Text? ==> Carries(codec, m.m.ct)) && Username(to)
    ensures !m.Text? || m.m.ct.Length() <= Sizes.LONGEST_TEXT + TAG_LEN ==>
              |MsgLine(to, TextOf(codec, m))| <= MAX_PLAINTEXT
  {
    match m
    case Text(c) =>
      Sizes.ChatLineLength(codec, c, to);
      hide ChatText;
    case Init(epoch, pub) => Sizes.KexFits(epoch, pub, to);
    case Ack(epoch, pub) => Sizes.KexFits(epoch, pub, to);
  }

  /** In every run, every message in flight arrives as it was sent, on a line short enough to be sent. */
  lemma FlightsArrive(codec: Codec, steps: seq<Step>, t: Timing, side: Side, i: nat, sender: string, to: string)
    requires Username(sender) && Username(to)
    requires var q := At(Run(Initial(), steps, t), side).out;
             i < |q| && (q[i].msg.Text? && q[i].msg.m.Chat? ==> Carries(codec, q[i].msg.m.ct))
    ensures var m := At(Run(Initial(), steps, t), side).out[i].msg;
            && Encodable(m)
            && (!m.Text? || m.m.ct.Length() <= Sizes.LONGEST_TEXT + TAG_LEN ==>
                  |MsgLine(to, TextOf(codec, m))| <= MAX_PLAINTEXT)
            && Incoming(FromLine(sender, TextOf(codec, m))) == Some((sender, TextOf(codec, m)))
            && MsgOf(codec, TextOf(codec, m)) == Some(m)
  {
    RunEncodable(Initial(), steps, t);
    var m := At(Run(Initial(), steps, t), side).out[i].msg;
    UsernameHasNoSpace(sender);
    hide Run, Split, MsgOf, Incoming, MsgLine, FromLine, TextOf, Carries, Username;
    LinesSplitBack(sender, TextOf(codec, m));
    MessageBack(codec, m);
    MessageFits(codec, m, to);
  }
}
