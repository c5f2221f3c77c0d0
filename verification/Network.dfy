/**
 * The system as a whole: two clients, each with its connection to the relay,
 * and the relay with any other users. Whatever they do and however the relay
 * interleaves them, the two clients' end-to-end traffic is a run of the
 * two-party system; so the texts one user is shown are those the other sent
 * encrypted, in order, through every rotation of the keys.
 */
module Network {
  import opened Wrappers
  import opened ByteStrings
  import opened Crypto
  import opened Protocol
  import opened E2e
  import opened Client
  import opened Mirror
  import Delivery
  import Dh
  import Fingerprint
  import Grammar
  import Names
  import Relay
  import Rotation
  import Routing
  import Sizes
  import Wire

  type Side = Rotation.Side

  /** A client; how many of the lines it sent the relay has taken, and the lines it has displayed. */
  datatype End = End(name: string, fd: int, view: View, taken: nat, inbox: seq<string>)

  datatype World = World(a: End, b: End, relay: Relay.State, now: int)

  datatype Step =
    | Request(side: Side, to: string, x: nat)
    | Write(side: Side, to: string, text: string)
    | Timer(side: Side, rnd: map<string, nat>)
    | Take(side: Side)
    | Display(side: Side, x: nat)
    | Elsewhere(e: Routing.Event)
    | Wait(d: nat)

  function At(w: World, side: Side): End {
    if side == Rotation.A then w.a else w.b
  }

  function Put(w: World, side: Side, x: End): World {
    if side == Rotation.A then w.(a := x) else w.(b := x)
  }

  /** The next line the relay has for a client. */
  function Waiting(relay: Relay.State, x: End): Option<string> {
    if x.fd in relay.conns && |x.inbox| < |relay.conns[x.fd].lines| then Some(relay.conns[x.fd].lines[|x.inbox|]) else None
  }

  /** A client is asked for a session, given text to send, or its timer runs. */
  ghost function Acted(x: End, step: Step, codec: Codec, now: int, t: Timing): View
    requires step.Request? || step.Write? || step.Timer?
  {
    match step
    case Request(_, to, r) => Requested(x.view, x.name, to, Some(r), now)
    case Write(_, to, text) => Typed(x.view, codec, to, text)
    case Timer(_, rnd) => Timed(x.view, rnd, now, t)
  }

  ghost function Next(w: World, step: Step, codec: Codec, t: Timing): World {
    match step
    case Wait(d) => w.(now := w.now + d)
    case Elsewhere(e) => w.(relay := Routing.Step(w.relay, e))
    case Take(side) =>
      var x := At(w, side);
      if x.taken >= |x.view.sent| then w
      else
        Put(w, side, x.(taken := x.taken + 1))
        .(relay := Routing.Step(w.relay, Routing.Recv(x.fd, x.view.sent[x.taken])))
    case Display(side, r) =>
      var x := At(w, side);
      (match Waiting(w.relay, x)
       case None => w
       case Some(line) =>
         var view := Displayed(x.view, codec, x.name, line, Some(r), w.now, t.grace);
         Put(w, side, x.(view := view, inbox := x.inbox + [line])))
    case _ =>
      var x := At(w, step.side);
      Put(w, step.side, x.(view := Acted(x, step, codec, w.now, t)))
  }

  /** The tagged text from y that x displays next, if that is what its next line is. */
  function Coming(relay: Relay.State, x: End, y: End): Option<string> {
    match Waiting(relay, x)
    case None => None
    case Some(line) =>
      match Grammar.Incoming(line)
      case None => None
      case Some((sender, text)) =>
        if sender == y.name && !Grammar.Classify(text).Plain? then Some(text) else None
  }

  /** A message for an epoch that x has replaced is displayed while that epoch's window is open. */
  predicate Timely(codec: Codec, w: World, side: Side) {
    var x, y := At(w, side), At(w, Rotation.Other(side));
    match Coming(w.relay, x, y)
    case None => true
    case Some(text) =>
      Grammar.Classify(text).ToChat? && y.name in x.view.peers ==>
        var m, p := ChatOf(codec, Grammar.Classify(text).payload), x.view.peers[y.name];
        m.Chat? && m.epoch != p.cur.n ==> p.havePrev && w.now < p.graceUntil
  }

  /**
   * People are named by single words; the two ask each other for a session once;
   * key pairs generated for each other are honest; encrypted texts fit a line and
   * survive the layout; both stay connected, and nobody else uses their connections.
   */
  predicate Legal(codec: Codec, w: World, step: Step) {
    match step
    case Request(side, to, x) =>
      ' ' !in to && (to == At(w, Rotation.Other(side)).name ==> to !in At(w, side).view.peers && Rotation.Honest(x))
    case Write(side, to, text) =>
      && ' ' !in to
      && (to == At(w, Rotation.Other(side)).name && InSession(At(w, side).view, to) ==>
            && |text| <= Sizes.LONGEST_TEXT
            && var r := SealPeer(Lookup(At(w, side).view.peers, to), text); (r.Ok? ==> Carries(codec, r.value.1.ct)))
    case Timer(side, rnd) =>
      var own := Draw(rnd, At(w, Rotation.Other(side)).name);
      own.Some? ==> Rotation.Honest(own.value)
    case Display(side, x) => Rotation.Honest(x) && Timely(codec, w, side)
    case Elsewhere(e) => e.fd != w.a.fd && e.fd != w.b.fd
    case _ => true
  }

  ghost function Run(w: World, steps: seq<Step>, codec: Codec, t: Timing): World
    decreases |steps|
  {
    if steps == [] then w else Run(Next(w, steps[0], codec, t), steps[1..], codec, t)
  }

  ghost predicate LegalRun(w: World, steps: seq<Step>, codec: Codec, t: Timing)
    decreases |steps|
  {
    steps == [] || (Legal(codec, w, steps[0]) && LegalRun(Next(w, steps[0], codec, t), steps[1..], codec, t))
  }

  // ---------------------------------------------------------------- the relation

  ghost predicate LoggedIn(relay: Relay.State, x: End) {
    Routing.Holds(relay, x.fd, x.name) && Grammar.Username(x.name)
  }

  /** What the relay has queued for y as from x is what it has taken from x for y; y has displayed some of its lines. */
  ghost predicate Linked(relay: Relay.State, x: End, y: End) {
    && LoggedIn(relay, x) && LoggedIn(relay, y) && x.taken <= |x.view.sent| && y.inbox <= relay.conns[y.fd].lines
    && Routing.Heard(relay.conns[y.fd].lines, x.name) == To(x.view.sent[..x.taken], y.name)
  }

  /** The tagged texts from x that y has displayed. */
  function Gone(x: End, y: End): seq<string> {
    Tagged(Routing.Heard(y.inbox, x.name))
  }

  ghost predicate Half(codec: Codec, relay: Relay.State, x: End, y: End, n: Rotation.Node) {
    Linked(relay, x, y) && Mirrors(codec, x.view, y.name, n, Gone(x, y))
  }

  /** The layout carries every chat message in flight, and every field has its width. */
  ghost predicate Portable(codec: Codec, s: Rotation.Sys) {
    && Wire.AllEncodable(s.a) && Wire.AllEncodable(s.b)
    && AllCarried(codec, s.a.out) && AllCarried(codec, s.b.out)
  }

  ghost predicate AllCarried(codec: Codec, q: seq<Rotation.Flight>) {
    forall f :: f in q && f.msg.Text? && f.msg.m.Chat? ==> Carries(codec, f.msg.m.ct)
  }

  ghost predicate Related(codec: Codec, w: World, s: Rotation.Sys) {
    && Routing.Indexed(w.relay) && w.now == s.now && Names.Less(w.a.name, w.b.name)
    && Half(codec, w.relay, w.a, w.b, s.a) && Half(codec, w.relay, w.b, w.a, s.b)
  }

  lemma EitherSide(codec: Codec, w: World, s: Rotation.Sys, side: Side)
    requires Related(codec, w, s)
    ensures var x, y := At(w, side), At(w, Rotation.Other(side));
            && Half(codec, w.relay, x, y, Rotation.At(s, side))
            && Half(codec, w.relay, y, x, Rotation.At(s, Rotation.Other(side)))
            && x.name != y.name && x.fd != y.fd && Names.Less(x.name, y.name) == (side == Rotation.A)
  {
    Names.Trichotomy(w.a.name, w.b.name);
    hide Mirrors, Names.Less, Grammar.Username;
  }

  lemma BothSides(codec: Codec, w: World, s: Rotation.Sys, side: Side)
    requires Routing.Indexed(w.relay) && w.now == s.now && Names.Less(w.a.name, w.b.name)
    requires Half(codec, w.relay, At(w, side), At(w, Rotation.Other(side)), Rotation.At(s, side))
    requires Half(codec, w.relay, At(w, Rotation.Other(side)), At(w, side), Rotation.At(s, Rotation.Other(side)))
    ensures Related(codec, w, s)
  {
  }

  // ------------------------------------------------------------ steps of the relay

  /** Whatever else happens at the relay, the lines from x to y are those it has taken. */
  lemma RelayHalf(codec: Codec, relay: Relay.State, e: Routing.Event, x: End, y: End, n: Rotation.Node)
    requires Routing.Indexed(relay) && Half(codec, relay, x, y, n)
    requires Routing.Spares(e, x.fd) && Routing.Spares(e, y.fd) && (e.Recv? ==> e.fd != x.fd)
    ensures Half(codec, Routing.Step(relay, e), x, y, n)
  {
    hide Mirrors, Gone, Routing.Indexed, Routing.Step, Routing.Heard, To, Grammar.Username;
    Routing.StepHeard(relay, e, x.fd, y.fd);
    Routing.StepGrows(relay, e);
  }

  lemma SentIsShort(codec: Codec, v: View, name: string, n: Rotation.Node, gone: seq<string>, i: nat)
    requires Mirrors(codec, v, name, n, gone) && i < |v.sent|
    ensures |v.sent[i]| <= MAX_PLAINTEXT
  {
    hide To, Tagged, AccountOf, TextsOf;
    assert v.sent[i] in v.sent;
  }

  /** The relay takes the next line of x. */
  lemma TakeLinked(relay: Relay.State, e: Routing.Event, x: End, y: End)
    requires Routing.Indexed(relay) && Linked(relay, x, y) && x.fd != y.fd
    requires x.taken < |x.view.sent| && e == Routing.Recv(x.fd, x.view.sent[x.taken]) && |e.line| <= MAX_PLAINTEXT
    ensures Linked(Routing.Step(relay, e), x.(taken := x.taken + 1), y)
  {
    hide Routing.Indexed, Routing.Step, Routing.Heard, To, Grammar.Username, Grammar.Addressed;
    Routing.StepHeard(relay, e, x.fd, y.fd);
    Routing.StepGrows(relay, e);
    OneMoreTaken(x.view.sent, x.taken, y.name);
  }

  lemma OneMoreTaken(sent: seq<string>, i: nat, name: string)
    requires i < |sent|
    ensures To(sent[..i + 1], name) == To(sent[..i], name) + Grammar.Addressed(sent[i], name)
  {
    hide To, Grammar.Addressed;
    ToAppend(sent[..i], sent[i], name);
    assert sent[..i + 1] == sent[..i] + [sent[i]];
  }

  lemma TakeHalf(codec: Codec, relay: Relay.State, e: Routing.Event, x: End, y: End, n: Rotation.Node)
    requires Routing.Indexed(relay) && Half(codec, relay, x, y, n) && x.fd != y.fd
    requires x.taken < |x.view.sent| && e == Routing.Recv(x.fd, x.view.sent[x.taken])
    ensures |e.line| <= MAX_PLAINTEXT && Half(codec, Routing.Step(relay, e), x.(taken := x.taken + 1), y, n)
  {
    hide Mirrors, Tagged, Linked, Routing.Indexed, Routing.Step, Routing.Heard, To;
    SentIsShort(codec, x.view, y.name, n, Gone(x, y), x.taken);
    TakeLinked(relay, e, x, y);
  }

  /** Of the receiver only its name, its connection and what it has displayed matter. */
  lemma SameReceiver(codec: Codec, relay: Relay.State, x: End, y: End, z: End, n: Rotation.Node)
    requires Half(codec, relay, x, y, n) && z.name == y.name && z.fd == y.fd && z.inbox == y.inbox
    ensures Half(codec, relay, x, z, n)
  {
    hide Mirrors, Routing.Heard, To;
  }

  /** A step of the client x alone. */
  lemma ViewHalf(codec: Codec, relay: Relay.State, x: End, y: End, n: Rotation.Node, view: View)
    requires Linked(relay, x, y) && Mirrors(codec, view, y.name, n, Gone(x, y)) && x.view.sent <= view.sent
    ensures Half(codec, relay, x.(view := view), y, n)
  {
    hide Mirrors, Tagged, Routing.Heard, To, Grammar.Username;
    assert view.sent[..x.taken] == x.view.sent[..x.taken];
  }

  // ------------------------------------------------------- what a client displays

  lemma {:induction false} HeardPrefix(p: seq<string>, q: seq<string>, name: string)
    requires p <= q
    ensures Routing.Heard(p, name) <= Routing.Heard(q, name)
  {
    hide Grammar.Incoming;
    if p == q {
    } else {
      HeardPrefix(p, q[..|q| - 1], name);
    }
  }

  lemma {:induction false} ToPrefix(p: seq<string>, q: seq<string>, name: string)
    requires p <= q
    ensures To(p, name) <= To(q, name)
  {
    hide Grammar.Addressed;
    if p == q {
    } else {
      ToPrefix(p, q[..|q| - 1], name);
    }
  }

  lemma TaggedPrefix(p: seq<string>, q: seq<string>)
    requires p <= q
    ensures Tagged(p) <= Tagged(q)
  {
    TaggedConcat(p, q[|p|..]);
    assert p + q[|p|..] == q;
  }

  lemma ComesWaiting(relay: Relay.State, y: End, x: End)
    ensures Coming(relay, y, x).Some? ==>
              && Waiting(relay, y).Some?
              && Grammar.Incoming(Waiting(relay, y).value) == Some((x.name, Coming(relay, y, x).value))
  {
    hide Grammar.Incoming, Grammar.Classify;
  }

  /** A tagged text that y is about to display is the one at the head of x's channel. */
  lemma ComesFromHead(codec: Codec, relay: Relay.State, x: End, y: End, n: Rotation.Node, text: string)
    requires Half(codec, relay, x, y, n) && Coming(relay, y, x) == Some(text)
    ensures n.out != [] && text == Wire.TextOf(codec, n.out[0].msg)
    ensures Gone(x, y.(inbox := y.inbox + [Waiting(relay, y).value])) == Gone(x, y) + [text]
  {
    hide Routing.Heard, To, Tagged, Wire.TextOf, Grammar.Classify, Grammar.Incoming, Sane, AccountOf;
    var line := Waiting(relay, y).value;
    var lines := relay.conns[y.fd].lines;
    var next := Routing.Heard(y.inbox, x.name) + [text];
    Routing.HeardOne(y.inbox, line, x.name);
    TaggedAppend(Routing.Heard(y.inbox, x.name), text);
    assert y.inbox + [line] <= lines;
    HeardPrefix(y.inbox + [line], lines, x.name);
    ToPrefix(x.view.sent[..x.taken], x.view.sent, y.name);
    TaggedPrefix(next, To(x.view.sent, y.name));
    FirstOfRest(Gone(x, y), text, TextsOf(codec, n.out));
  }

  lemma FirstOfRest(gone: seq<string>, text: string, rest: seq<string>)
    requires gone + [text] <= gone + rest
    ensures rest != [] && rest[0] == text
  {
    assert |rest| > 0;
    assert (gone + [text])[|gone|] == (gone + rest)[|gone|];
  }

  /** Any other line leaves what y has displayed of x's channel as it was. */
  lemma OtherLine(relay: Relay.State, x: End, y: End)
    requires Waiting(relay, y).Some? && Coming(relay, y, x) == None
    ensures Gone(x, y.(inbox := y.inbox + [Waiting(relay, y).value])) == Gone(x, y)
  {
    hide Routing.Heard, Tagged, Grammar.Incoming, Grammar.Classify;
    var line := Waiting(relay, y).value;
    Routing.HeardOne(y.inbox, line, x.name);
    match Grammar.Incoming(line)
    case None => assert Routing.Heard(y.inbox, x.name) + [] == Routing.Heard(y.inbox, x.name);
    case Some((sender, text)) =>
      TaggedAppend(Routing.Heard(y.inbox, x.name), text);
      assert Routing.Heard(y.inbox, x.name) + [] == Routing.Heard(y.inbox, x.name);
      assert Tagged(Routing.Heard(y.inbox, x.name)) + [] == Tagged(Routing.Heard(y.inbox, x.name));
  }

  /** The head of the channel has been displayed. */
  lemma HeadGone(codec: Codec, v: View, name: string, n: Rotation.Node, gone: seq<string>)
    requires Mirrors(codec, v, name, n, gone) && n.out != []
    ensures Mirrors(codec, v, name, n.(out := n.out[1..]), gone + [Wire.TextOf(codec, n.out[0].msg)])
  {
    hide Sane, Tagged, To, AccountOf, Wire.TextOf;
    assert TextsOf(codec, n.out) == [Wire.TextOf(codec, n.out[0].msg)] + TextsOf(codec, n.out[1..]);
  }

  /** y displays its next line, which is no end-to-end message of x. */
  lemma ShowsOther(codec: Codec, relay: Relay.State, x: End, y: End, n: Rotation.Node, m: Rotation.Node, r: nat, now: int,
                   t: Timing)
    requires Half(codec, relay, x, y, n) && Half(codec, relay, y, x, m)
    requires Waiting(relay, y).Some? && Coming(relay, y, x) == None
    ensures var line := Waiting(relay, y).value;
            var z := y.(view := Displayed(y.view, codec, y.name, line, Some(r), now, t.grace), inbox := y.inbox + [line]);
            Half(codec, relay, x, z, n) && Half(codec, relay, z, x, m)
  {
    var line := Waiting(relay, y).value;
    var view := Displayed(y.view, codec, y.name, line, Some(r), now, t.grace);
    OtherLine(relay, x, y);
    assert Sane(y.view);
    hide Displayed, Sane, Tagged, To, Routing.Heard, AccountOf, Grammar.Classify, Grammar.Incoming, Grammar.Username,
         TextsOf;
    DisplayedAside(y.view, codec, y.name, line, r, now, t.grace, x.name);
    AsideMirrors(codec, y.view, view, x.name, m, Gone(y, x));
    ViewHalf(codec, relay, y, x, m, view);
    Displays(codec, relay, x, y, n, view);
    assert Half(codec, relay, y.(view := view), x, m);
  }

  lemma Displays(codec: Codec, relay: Relay.State, x: End, y: End, n: Rotation.Node, view: View)
    requires Linked(relay, x, y) && Waiting(relay, y).Some?
    requires Mirrors(codec, x.view, y.name, n, Gone(x, y.(inbox := y.inbox + [Waiting(relay, y).value])))
    ensures Half(codec, relay, x, y.(view := view, inbox := y.inbox + [Waiting(relay, y).value]), n)
  {
    hide Mirrors, To, Routing.Heard, Tagged, Grammar.Username;
  }

  /** y displays the message at the head of x's channel. */
  lemma ShowsMessage(codec: Codec, relay: Relay.State, x: End, y: End, n: Rotation.Node, m: Rotation.Node, r: nat, now: int,
                     t: Timing)
    requires Half(codec, relay, x, y, n) && Half(codec, relay, y, x, m) && Coming(relay, y, x).Some?
    requires n.out != [] ==>
               Wire.Encodable(n.out[0].msg) && (n.out[0].msg.Text? ==> Carries(codec, n.out[0].msg.m.ct))
    ensures n.out != []
    ensures var line := Waiting(relay, y).value;
            var z := y.(view := Displayed(y.view, codec, y.name, line, Some(r), now, t.grace), inbox := y.inbox + [line]);
            && Half(codec, relay, x, z, n.(out := n.out[1..]))
            && Half(codec, relay, z, x, Rotation.Received(m, Names.Less(y.name, x.name), n.out[0].msg, r, now, t))
  {
    hide Half, Linked, Displayed, Mirrors, Tagged, To, Routing.Heard, Grammar.Classify, Grammar.Incoming, Grammar.Username,
         Wire.TextOf, Wire.Encodable, Carries, Rotation.Received, Names.Less, Sane, Matches, Waiting, Coming;
    var text := Coming(relay, y, x).value;
    ComesWaiting(relay, y, x);
    HalfMatches(codec, relay, x, y, n);
    HalfMatches(codec, relay, y, x, m);
    ComesFromHead(codec, relay, x, y, n, text);
    var line := Waiting(relay, y).value;
    var view := Displayed(y.view, codec, y.name, line, Some(r), now, t.grace);
    DisplayedMirrors(codec, y.view, y.name, x.name, m, Gone(y, x), line, n.out[0].msg, r, now, t);
    ViewHalf(codec, relay, y, x, Rotation.Received(m, Names.Less(y.name, x.name), n.out[0].msg, r, now, t), view);
    HeadGone(codec, x.view, y.name, n, Gone(x, y));
    Displays(codec, relay, x, y, n.(out := n.out[1..]), view);
    SenderAlone(codec, relay, y, x, Rotation.Received(m, Names.Less(y.name, x.name), n.out[0].msg, r, now, t), view, line);
  }

  /** What a client has displayed does not matter to its own channel. */
  lemma SenderAlone(codec: Codec, relay: Relay.State, x: End, y: End, n: Rotation.Node, view: View, line: string)
    requires Half(codec, relay, x.(view := view), y, n) && Waiting(relay, x) == Some(line)
    ensures Half(codec, relay, x.(view := view, inbox := x.inbox + [line]), y, n)
  {
    hide Mirrors, Tagged, To, Routing.Heard;
  }

  // -------------------------------------------------------------- every step follows

  /** Only a text that was just sealed is new in a channel; if the layout carries it, it carries all. */
  lemma StepPortable(codec: Codec, s: Rotation.Sys, step: Rotation.Step, t: Timing)
    requires Portable(codec, s)
    requires step.Say? ==>
               var r := SealPeer(Rotation.At(s, step.side).peer, step.text); r.Ok? ==> Carries(codec, r.value.1.ct)
    ensures Portable(codec, Rotation.Next(s, step, t))
  {
    Wire.StepEncodable(s, step, t);
    hide Wire.AllEncodable, Carries, SealPeer, AllCarried, Rotation.Started, Rotation.Ticked, Rotation.Said,
         Rotation.Received, Rotation.Recorded;
    match step
    case Start(side, x) => StartedCarried(codec, Rotation.At(s, side), side == Rotation.A, x, s.now);
    case Tick(side, rnd) => TickedCarried(codec, Rotation.At(s, side), rnd, s.now, t);
    case Say(side, text) => SaidCarried(codec, Rotation.At(s, side), text, s.now);
    case Deliver(side, x) =>
      var from := Rotation.At(s, Rotation.Other(side));
      if from.out != [] {
        ReceivedCarried(codec, Rotation.At(s, side), side == Rotation.A, from.out[0].msg, x, s.now, t);
        TailCarried(codec, from.out);
      }
    case Wait(_) =>
  }

  lemma TailCarried(codec: Codec, q: seq<Rotation.Flight>)
    requires AllCarried(codec, q) && q != []
    ensures AllCarried(codec, q[1..])
  {
    hide Carries;
  }

  lemma StartedCarried(codec: Codec, n: Rotation.Node, amA: bool, x: nat, now: int)
    requires AllCarried(codec, n.out)
    ensures AllCarried(codec, Rotation.Started(n, amA, x, now).out)
  {
    hide Carries, StartPeer;
  }

  lemma TickedCarried(codec: Codec, n: Rotation.Node, rnd: Option<nat>, now: int, t: Timing)
    requires AllCarried(codec, n.out)
    ensures AllCarried(codec, Rotation.Ticked(n, rnd, now, t).out)
  {
    hide Carries, TickPeer;
  }

  lemma SaidCarried(codec: Codec, n: Rotation.Node, text: string, now: int)
    requires AllCarried(codec, n.out)
    requires var r := SealPeer(n.peer, text); r.Ok? && r.value.1.Chat? ==> Carries(codec, r.value.1.ct)
    ensures AllCarried(codec, Rotation.Said(n, text, now).out)
  {
    hide Carries, SealPeer;
  }

  lemma ReceivedCarried(codec: Codec, n: Rotation.Node, amA: bool, msg: Rotation.Msg, x: nat, now: int, t: Timing)
    requires AllCarried(codec, n.out)
    ensures AllCarried(codec, Rotation.Received(n, amA, msg, x, now, t).out)
  {
    hide Carries, OnInitPeer, OnAckPeer, OpenPeer;
  }

  /** The text made of a chat message at the head of a channel is read as that message. */
  lemma HeadIsChat(codec: Codec, n: Rotation.Node)
    requires Wire.AllEncodable(n) && AllCarried(codec, n.out) && n.out != [] && n.out[0].msg.Text?
    ensures var d := Grammar.Classify(Wire.TextOf(codec, n.out[0].msg));
            n.out[0].msg.m.Chat? && d.ToChat? && ChatOf(codec, d.payload) == n.out[0].msg.m
  {
    var c := n.out[0].msg.m;
    assert n.out[0] in n.out;
    Grammar.TagSelects(ChatText(codec, c));
    ChatRoundTrip(codec, c);
    hide ChatText, ChatOf, Grammar.Classify, Carries;
  }

  /** A message sealed under the epoch before the receiver's has another epoch number than the receiver's. */
  lemma EpochsDiffer(s: Rotation.Sys, side: Side)
    requires Rotation.Inv(s) && Delivery.AllFlowing(s)
    requires var y := Rotation.At(s, Rotation.Other(side));
             y.out != [] && y.out[0].msg.Text? && y.out[0].idx == Rotation.At(s, side).idx - 1
    ensures var n, f := Rotation.At(s, side), Rotation.At(s, Rotation.Other(side)).out[0];
            n.peer.Some? && f.msg.m.Chat? && f.msg.m.epoch != n.peer.value.cur.n
  {
    hide Rotation.Sound, Delivery.Ready, Derive, NonceOf, Rotation.U32;
    var n, y := Rotation.At(s, side), Rotation.At(s, Rotation.Other(side));
    Rotation.InvAgrees(s);
    Delivery.ReadyText(y.out, n.idx, Delivery.Rx(n), Delivery.PrevRx(n), side == Rotation.A && Rotation.Rotating(n),
                       side != Rotation.A, y.idx, Delivery.Tx(y), s.secrets);
    Rotation.U32Facts(n.idx - 1);
  }

  /** What is displayed in time is delivered in time. */
  lemma ComesInTime(codec: Codec, w: World, s: Rotation.Sys, side: Side, r: nat)
    requires Related(codec, w, s) && Rotation.Inv(s) && Delivery.AllFlowing(s) && Portable(codec, s)
    requires Timely(codec, w, side) && Coming(w.relay, At(w, side), At(w, Rotation.Other(side))).Some?
    ensures Delivery.StepInTime(s, Rotation.Deliver(side, r))
  {
    hide Half, Rotation.Inv, Delivery.AllFlowing, Wire.AllEncodable, AllCarried, Wire.TextOf, Grammar.Classify, ChatOf,
         Coming;
    var x, y := At(w, side), At(w, Rotation.Other(side));
    var n, m := Rotation.At(s, side), Rotation.At(s, Rotation.Other(side));
    EitherSide(codec, w, s, side);
    ComesFromHead(codec, w.relay, y, x, m, Coming(w.relay, x, y).value);
    if m.out[0].msg.Text? && m.out[0].idx == n.idx - 1 {
      HeadIsChat(codec, m);
      EpochsDiffer(s, side);
      HalfMatches(codec, w.relay, x, y, n);
    }
  }

  lemma HalfMatches(codec: Codec, relay: Relay.State, x: End, y: End, n: Rotation.Node)
    requires Half(codec, relay, x, y, n)
    ensures Linked(relay, x, y) && Mirrors(codec, x.view, y.name, n, Gone(x, y)) && x.taken <= |x.view.sent|
    ensures Matches(x.view, y.name, n) && Sane(x.view) && Grammar.Username(y.name)
  {
    hide Matches, Sane, Tagged, To, AccountOf, Routing.Heard, Grammar.Username;
  }

  /** Of at most one step of the two-party system: it may be taken, in time, and leads where the step of the world does. */
  ghost predicate Mimics(codec: Codec, w: World, step: Step, s: Rotation.Sys, r: seq<Rotation.Step>, t: Timing) {
    if r == [] then Related(codec, Next(w, step, codec, t), s)
    else
      && |r| == 1 && Rotation.Legal(s, r[0]) && Delivery.StepInTime(s, r[0])
      && Related(codec, Next(w, step, codec, t), Rotation.Next(s, r[0], t)) && Portable(codec, Rotation.Next(s, r[0], t))
  }

  /** A client acted, and with it its node. */
  lemma ActRelated(codec: Codec, w: World, s: Rotation.Sys, side: Side, view: View, u: Rotation.Sys)
    requires Related(codec, w, s) && u.now == s.now
    requires Rotation.At(u, Rotation.Other(side)) == Rotation.At(s, Rotation.Other(side))
    requires var x, y := At(w, side), At(w, Rotation.Other(side));
             Mirrors(codec, view, y.name, Rotation.At(u, side), Gone(x, y)) && x.view.sent <= view.sent
    ensures Related(codec, Put(w, side, At(w, side).(view := view)), u)
  {
    var x, y := At(w, side), At(w, Rotation.Other(side));
    EitherSide(codec, w, s, side);
    hide Mirrors, Linked, Gone, Names.Less, Routing.Indexed;
    ViewHalf(codec, w.relay, x, y, Rotation.At(u, side), view);
    SameReceiver(codec, w.relay, y, x, x.(view := view), Rotation.At(u, Rotation.Other(side)));
    BothSides(codec, Put(w, side, x.(view := view)), u, side);
  }

  lemma AsideRelated(codec: Codec, w: World, s: Rotation.Sys, side: Side, view: View)
    requires Related(codec, w, s) && Aside(At(w, side).view, view, At(w, Rotation.Other(side)).name)
    ensures Related(codec, Put(w, side, At(w, side).(view := view)), s)
  {
    var x, y := At(w, side), At(w, Rotation.Other(side));
    EitherSide(codec, w, s, side);
    hide Mirrors, Linked, Gone, Aside, Related;
    AsideMirrors(codec, x.view, view, y.name, Rotation.At(s, side), Gone(x, y));
    ActRelated(codec, w, s, side, view, s);
  }

  /** A step of one client's node leaves the time and the other node alone. */
  lemma NodeActs(s: Rotation.Sys, q: Rotation.Step, t: Timing)
    requires q.Start? || q.Say? || q.Tick?
    ensures var u := Rotation.Next(s, q, t);
            && u.now == s.now && Rotation.At(u, Rotation.Other(q.side)) == Rotation.At(s, Rotation.Other(q.side))
            && (q.Start? ==>
                  Rotation.At(u, q.side) == Rotation.Started(Rotation.At(s, q.side), q.side == Rotation.A, q.x, s.now))
            && (q.Say? ==> Rotation.At(u, q.side) == Rotation.Said(Rotation.At(s, q.side), q.text, s.now))
            && (q.Tick? ==> Rotation.At(u, q.side) == Rotation.Ticked(Rotation.At(s, q.side), q.rnd, s.now, t))
            && Delivery.StepInTime(s, q)
  {
    hide Rotation.Started, Rotation.Said, Rotation.Ticked;
  }

  /** The user asks the other for a session. */
  lemma AskFollows(codec: Codec, w: World, side: Side, x: nat, s: Rotation.Sys, t: Timing)
    requires Related(codec, w, s) && Portable(codec, s) && Rotation.Honest(x)
    requires At(w, Rotation.Other(side)).name !in At(w, side).view.peers
    ensures Mimics(codec, w, Request(side, At(w, Rotation.Other(side)).name, x), s, [Rotation.Start(side, x)], t)
  {
    hide Half, Related, Mirrors, Linked, Gone, Portable, Requested, Rotation.Started, Rotation.Next, Rotation.Honest,
         Delivery.StepInTime, Grammar.Username, Sane, Names.Less;
    var me, y := At(w, side), At(w, Rotation.Other(side));
    EitherSide(codec, w, s, side);
    HalfMatches(codec, w.relay, me, y, Rotation.At(s, side));
    StepPortable(codec, s, Rotation.Start(side, x), t);
    NodeActs(s, Rotation.Start(side, x), t);
    RequestedMirrors(codec, me.view, me.name, y.name, Rotation.At(s, side), Gone(me, y), x, s.now);
    SameNow(codec, w, s);
    ActRelated(codec, w, s, side, Requested(me.view, me.name, y.name, Some(x), w.now),
               Rotation.Next(s, Rotation.Start(side, x), t));
  }

  lemma SameNow(codec: Codec, w: World, s: Rotation.Sys)
    requires Related(codec, w, s)
    ensures w.now == s.now && Routing.Indexed(w.relay) && Names.Less(w.a.name, w.b.name)
  {
    hide Half, Routing.Indexed, Names.Less;
  }

  lemma RequestFollows(codec: Codec, w: World, step: Step, s: Rotation.Sys, t: Timing) returns (r: seq<Rotation.Step>)
    requires Related(codec, w, s) && Portable(codec, s) && Legal(codec, w, step) && step.Request?
    ensures Mimics(codec, w, step, s, r, t)
  {
    hide Half, Related, Mirrors, Linked, Gone, Portable, Requested, Rotation.Next, Rotation.Honest, Rotation.Legal,
         Delivery.StepInTime, Grammar.Username, Sane, Names.Less, Aside;
    var x, y := At(w, step.side), At(w, Rotation.Other(step.side));
    if step.to == y.name {
      r := [Rotation.Start(step.side, step.x)];
      AskFollows(codec, w, step.side, step.x, s, t);
    } else {
      r := [];
      EitherSide(codec, w, s, step.side);
      HalfMatches(codec, w.relay, x, y, Rotation.At(s, step.side));
      RequestedAside(x.view, x.name, step.to, step.x, w.now, y.name);
      AsideRelated(codec, w, s, step.side, Requested(x.view, x.name, step.to, Some(step.x), w.now));
    }
  }

  /** The user sends the other a text, encrypted. */
  lemma SayFollows(codec: Codec, w: World, side: Side, text: string, s: Rotation.Sys, t: Timing)
    requires Related(codec, w, s) && Portable(codec, s)
    requires Legal(codec, w, Write(side, At(w, Rotation.Other(side)).name, text))
    requires InSession(At(w, side).view, At(w, Rotation.Other(side)).name) && Grammar.Sendable(text)
    ensures Mimics(codec, w, Write(side, At(w, Rotation.Other(side)).name, text), s, [Rotation.Say(side, text)], t)
  {
    hide Half, Related, Mirrors, Linked, Gone, Portable, Typed, Rotation.Said, Rotation.Next, Rotation.Honest, SealPeer,
         Carries, Delivery.StepInTime, Grammar.Username, Sane, Names.Less, Grammar.Sendable, InSession;
    var me, y := At(w, side), At(w, Rotation.Other(side));
    EitherSide(codec, w, s, side);
    HalfMatches(codec, w.relay, me, y, Rotation.At(s, side));
    StepPortable(codec, s, Rotation.Say(side, text), t);
    NodeActs(s, Rotation.Say(side, text), t);
    TypedMirrors(codec, me.view, y.name, Rotation.At(s, side), Gone(me, y), text, s.now);
    SameNow(codec, w, s);
    ActRelated(codec, w, s, side, Typed(me.view, codec, y.name, text), Rotation.Next(s, Rotation.Say(side, text), t));
  }

  lemma WriteFollows(codec: Codec, w: World, step: Step, s: Rotation.Sys, t: Timing) returns (r: seq<Rotation.Step>)
    requires Related(codec, w, s) && Portable(codec, s) && Legal(codec, w, step) && step.Write?
    ensures Mimics(codec, w, step, s, r, t)
  {
    hide Half, Related, Mirrors, Linked, Gone, Portable, Typed, Rotation.Next, Rotation.Legal, SealPeer, Carries,
         Delivery.StepInTime, Grammar.Username, Sane, Names.Less, Grammar.Sendable, InSession, Aside;
    var x, y := At(w, step.side), At(w, Rotation.Other(step.side));
    if step.to == y.name && InSession(x.view, step.to) && Grammar.Sendable(step.text) {
      r := [Rotation.Say(step.side, step.text)];
      SayFollows(codec, w, step.side, step.text, s, t);
    } else {
      r := [];
      EitherSide(codec, w, s, step.side);
      HalfMatches(codec, w.relay, x, y, Rotation.At(s, step.side));
      if Grammar.Sendable(step.text) {
        TypedAside(x.view, codec, step.to, step.text, y.name);
      } else {
        ReservedAside(x.view, codec, step.to, step.text, y.name);
      }
      AsideRelated(codec, w, s, step.side, Typed(x.view, codec, step.to, step.text));
    }
  }

  lemma TimerFollows(codec: Codec, w: World, step: Step, s: Rotation.Sys, t: Timing) returns (r: seq<Rotation.Step>)
    requires Related(codec, w, s) && Portable(codec, s) && Legal(codec, w, step) && step.Timer?
    ensures Mimics(codec, w, step, s, r, t)
  {
    hide Half, Related, Mirrors, Linked, Gone, Portable, Timed, Rotation.Ticked, Rotation.Next, Rotation.Honest, Draw,
         Delivery.StepInTime, Grammar.Username, Sane, Names.Less;
    var x, y := At(w, step.side), At(w, Rotation.Other(step.side));
    var q := Rotation.Tick(step.side, Draw(step.rnd, y.name));
    r := [q];
    EitherSide(codec, w, s, step.side);
    HalfMatches(codec, w.relay, x, y, Rotation.At(s, step.side));
    StepPortable(codec, s, q, t);
    NodeActs(s, q, t);
    SameNow(codec, w, s);
    TimedMirrors(codec, x.view, y.name, Rotation.At(s, step.side), Gone(x, y), step.rnd, w.now, t);
    ActRelated(codec, w, s, step.side, Timed(x.view, step.rnd, w.now, t), Rotation.Next(s, q, t));
  }

  lemma TakeFollows(codec: Codec, w: World, step: Step, s: Rotation.Sys, t: Timing)
    requires Related(codec, w, s) && step.Take?
    ensures Mimics(codec, w, step, s, [], t)
  {
    hide Half, Related, Linked, Mirrors, Gone, Routing.Indexed, Routing.Step, Names.Less, Sane, Grammar.Username;
    var x, y := At(w, step.side), At(w, Rotation.Other(step.side));
    var n, m := Rotation.At(s, step.side), Rotation.At(s, Rotation.Other(step.side));
    EitherSide(codec, w, s, step.side);
    SameNow(codec, w, s);
    if x.taken < |x.view.sent| {
      var e := Routing.Recv(x.fd, x.view.sent[x.taken]);
      Routing.StepIndexed(w.relay, e);
      TakeHalf(codec, w.relay, e, x, y, n);
      RelayHalf(codec, w.relay, e, y, x, m);
      SameReceiver(codec, Routing.Step(w.relay, e), y, x, x.(taken := x.taken + 1), m);
      BothSides(codec, Next(w, step, codec, t), s, step.side);
    }
  }

  lemma ElsewhereFollows(codec: Codec, w: World, step: Step, s: Rotation.Sys, t: Timing)
    requires Related(codec, w, s) && Legal(codec, w, step) && step.Elsewhere?
    ensures Mimics(codec, w, step, s, [], t)
  {
    hide Half, Routing.Indexed, Routing.Step, Names.Less;
    Routing.StepIndexed(w.relay, step.e);
    RelayHalf(codec, w.relay, step.e, w.a, w.b, s.a);
    RelayHalf(codec, w.relay, step.e, w.b, w.a, s.b);
  }

  /** Delivering takes the head of the sender's channel and does to the receiver what its handler does. */
  lemma NodeReceives(s: Rotation.Sys, side: Side, x: nat, t: Timing)
    requires Rotation.At(s, Rotation.Other(side)).out != []
    ensures var n, m := Rotation.At(s, Rotation.Other(side)), Rotation.At(s, side);
            var u := Rotation.Next(s, Rotation.Deliver(side, x), t);
            && u.now == s.now && Rotation.At(u, Rotation.Other(side)) == n.(out := n.out[1..])
            && Rotation.At(u, side) == Rotation.Received(m, side == Rotation.A, n.out[0].msg, x, s.now, t)
  {
    hide Rotation.Received, Rotation.Recorded;
  }

  lemma MessageFollows(codec: Codec, w: World, side: Side, x: nat, s: Rotation.Sys, t: Timing)
    requires Related(codec, w, s) && Portable(codec, s) && Legal(codec, w, Display(side, x))
    requires Rotation.Inv(s) && Delivery.AllFlowing(s)
    requires Coming(w.relay, At(w, side), At(w, Rotation.Other(side))).Some?
    ensures Mimics(codec, w, Display(side, x), s, [Rotation.Deliver(side, x)], t)
  {
    var y, from := At(w, side), At(w, Rotation.Other(side));
    var m, n := Rotation.At(s, side), Rotation.At(s, Rotation.Other(side));
    hide Half, Related, Mirrors, Linked, Gone, Portable, Displayed, Rotation.Received, Rotation.Next, Rotation.Honest,
         Coming, Waiting, Delivery.StepInTime, Rotation.Inv, Delivery.AllFlowing, Names.Less, Routing.Indexed, Timely,
         Wire.Encodable, Carries;
    HeadPortable(codec, s, side);
    ComesWaiting(w.relay, y, from);
    EitherSide(codec, w, s, side);
    SameNow(codec, w, s);
    ComesInTime(codec, w, s, side, x);
    StepPortable(codec, s, Rotation.Deliver(side, x), t);
    ShowsMessage(codec, w.relay, from, y, n, m, x, w.now, t);
    NodeReceives(s, side, x, t);
    BothSides(codec, Next(w, Display(side, x), codec, t), Rotation.Next(s, Rotation.Deliver(side, x), t), side);
  }

  lemma DisplayFollows(codec: Codec, w: World, step: Step, s: Rotation.Sys, t: Timing) returns (r: seq<Rotation.Step>)
    requires Related(codec, w, s) && Portable(codec, s) && Legal(codec, w, step) && step.Display?
    requires Rotation.Inv(s) && Delivery.AllFlowing(s)
    ensures Mimics(codec, w, step, s, r, t)
  {
    hide Half, Related, Mirrors, Linked, Gone, Portable, Displayed, Rotation.Next, Rotation.Legal, Coming, Waiting,
         Delivery.StepInTime, Rotation.Inv, Delivery.AllFlowing, Names.Less, Routing.Indexed, Timely;
    var y, x := At(w, step.side), At(w, Rotation.Other(step.side));
    ComesWaiting(w.relay, y, x);
    r := [];
    if Coming(w.relay, y, x).Some? {
      r := [Rotation.Deliver(step.side, step.x)];
      MessageFollows(codec, w, step.side, step.x, s, t);
    } else if Waiting(w.relay, y).Some? {
      EitherSide(codec, w, s, step.side);
      SameNow(codec, w, s);
      ShowsOther(codec, w.relay, x, y, Rotation.At(s, Rotation.Other(step.side)), Rotation.At(s, step.side), step.x, w.now,
                 t);
      BothSides(codec, Next(w, step, codec, t), s, step.side);
    }
  }

  lemma HeadPortable(codec: Codec, s: Rotation.Sys, side: Side)
    requires Portable(codec, s)
    ensures var n := Rotation.At(s, Rotation.Other(side));
            n.out != [] ==> Wire.Encodable(n.out[0].msg) && (n.out[0].msg.Text? ==> Carries(codec, n.out[0].msg.m.ct))
  {
    hide Carries;
    var n := Rotation.At(s, Rotation.Other(side));
    assert n.out != [] ==> n.out[0] in n.out;
  }

  lemma WaitFollows(codec: Codec, w: World, step: Step, s: Rotation.Sys, t: Timing) returns (r: seq<Rotation.Step>)
    requires Related(codec, w, s) && Portable(codec, s) && step.Wait?
    ensures Mimics(codec, w, step, s, r, t)
  {
    hide Related, Portable, Rotation.Next, Delivery.StepInTime, Next;
    r := [Rotation.Wait(step.d)];
    Waited(codec, w, s, step.d, t);
    StepPortable(codec, s, r[0], t);
  }

  lemma Waited(codec: Codec, w: World, s: Rotation.Sys, d: nat, t: Timing)
    requires Related(codec, w, s)
    ensures Related(codec, Next(w, Wait(d), codec, t), Rotation.Next(s, Rotation.Wait(d), t))
    ensures Delivery.StepInTime(s, Rotation.Wait(d))
  {
    hide Half, Names.Less, Routing.Indexed;
  }

  /** Every step of the world is at most one step of the two-party system. */
  lemma StepFollows(codec: Codec, w: World, step: Step, s: Rotation.Sys, t: Timing) returns (r: seq<Rotation.Step>)
    requires Related(codec, w, s) && Portable(codec, s) && Legal(codec, w, step)
    requires Rotation.Inv(s) && Delivery.AllFlowing(s)
    ensures Mimics(codec, w, step, s, r, t)
  {
    hide *;
    match step
    case Request(_, _, _) => r := RequestFollows(codec, w, step, s, t);
    case Write(_, _, _) => r := WriteFollows(codec, w, step, s, t);
    case Timer(_, _) => r := TimerFollows(codec, w, step, s, t);
    case Take(_) =>
      r := [];
      TakeFollows(codec, w, step, s, t);
    case Display(_, _) => r := DisplayFollows(codec, w, step, s, t);
    case Elsewhere(_) =>
      r := [];
      ElsewhereFollows(codec, w, step, s, t);
    case Wait(_) => r := WaitFollows(codec, w, step, s, t);
  }

  /** Every run of the world is a run of the two-party system, with no message late in it. */
  lemma {:induction false} RunFollows(codec: Codec, w: World, steps: seq<Step>, s: Rotation.Sys, t: Timing)
    returns (r: seq<Rotation.Step>)
    requires Related(codec, w, s) && Portable(codec, s) && LegalRun(w, steps, codec, t)
    requires Rotation.Inv(s) && Delivery.AllFlowing(s)
    ensures Rotation.LegalRun(s, r, t) && Delivery.RunInTime(s, r, t)
    ensures Related(codec, Run(w, steps, codec, t), Rotation.Run(s, r, t))
    decreases |steps|
  {
    hide Related, Portable, Legal, Next, Rotation.Inv, Delivery.AllFlowing, Rotation.Legal, Rotation.Next,
         Delivery.StepInTime;
    if steps == [] {
      r := [];
    } else {
      var head := StepFollows(codec, w, steps[0], s, t);
      var w' := Next(w, steps[0], codec, t);
      if head == [] {
        r := RunFollows(codec, w', steps[1..], s, t);
      } else {
        Rotation.StepKeeps(s, head[0], t);
        Delivery.StepFlows(s, head[0], t);
        var rest := RunFollows(codec, w', steps[1..], Rotation.Next(s, head[0], t), t);
        r := head + rest;
        assert r[0] == head[0] && r[1..] == rest;
      }
    }
  }

  /** Both users are logged in and have had nothing to do with each other yet. */
  ghost predicate Begins(w: World) {
    && Routing.Indexed(w.relay) && w.now == 0 && Names.Less(w.a.name, w.b.name)
    && LoggedIn(w.relay, w.a) && LoggedIn(w.relay, w.b)
    && w.a.view == w.b.view == View(map[], [], []) && w.a.taken == w.b.taken == 0 && w.a.inbox == w.b.inbox == []
    && Routing.Heard(w.relay.conns[w.b.fd].lines, w.a.name) == []
    && Routing.Heard(w.relay.conns[w.a.fd].lines, w.b.name) == []
  }

  lemma BeginsRelated(codec: Codec, w: World)
    requires Begins(w)
    ensures Related(codec, w, Rotation.Initial()) && Portable(codec, Rotation.Initial())
    ensures Rotation.Inv(Rotation.Initial()) && Delivery.AllFlowing(Rotation.Initial())
  {
    BeginsHalf(codec, w.relay, w.a, w.b);
    BeginsHalf(codec, w.relay, w.b, w.a);
    NothingYet(codec);
    hide Half, Portable, Rotation.Inv, Delivery.AllFlowing, Names.Less, Routing.Indexed, Grammar.Username;
  }

  lemma BeginsHalf(codec: Codec, relay: Relay.State, x: End, y: End)
    requires LoggedIn(relay, x) && LoggedIn(relay, y) && x.view == View(map[], [], []) && x.taken == 0 && y.inbox == []
    requires Routing.Heard(relay.conns[y.fd].lines, x.name) == []
    ensures Half(codec, relay, x, y, Rotation.Initial().a) && Rotation.Initial().a == Rotation.Initial().b
  {
    hide Grammar.Username;
  }

  lemma NothingYet(codec: Codec)
    ensures Portable(codec, Rotation.Initial())
    ensures Rotation.Inv(Rotation.Initial()) && Delivery.AllFlowing(Rotation.Initial())
  {
  }

  /** The relay has taken everything x sent, and y has displayed everything the relay has for it. */
  predicate Quiet(w: World, x: End, y: End)
    requires y.fd in w.relay.conns
  {
    x.taken == |x.view.sent| && y.inbox == w.relay.conns[y.fd].lines
  }

  /**
   * Through the relay, whoever else uses it, and through every rotation: what
   * one user is shown as end-to-end text from the other is a prefix of what the
   * other sent encrypted, all of it once everything has been passed on; and no
   * complaint about the other is ever shown.
   */
  lemma EverythingArrives(codec: Codec, w: World, steps: seq<Step>, t: Timing)
    requires Begins(w) && LegalRun(w, steps, codec, t)
    ensures var v := Run(w, steps, codec, t);
            var a, b := AccountOf(v.a.view.shown, v.b.name), AccountOf(v.b.view.shown, v.a.name);
            && LoggedIn(v.relay, v.a) && LoggedIn(v.relay, v.b)
            && a.complaints == b.complaints == 0
            && b.got <= a.sent && a.got <= b.sent
            && (Quiet(v, v.a, v.b) ==> b.got == a.sent)
            && (Quiet(v, v.b, v.a) ==> a.got == b.sent)
  {
    BeginsRelated(codec, w);
    hide *;
    var r := RunFollows(codec, w, steps, Rotation.Initial(), t);
    Delivery.Lossless(r, t);
    Rotation.Agreement(r, t);
    var v := Run(w, steps, codec, t);
    var s := Rotation.Run(Rotation.Initial(), r, t);
    RelatedHalves(codec, v, s);
    HalfCounts(codec, v, v.a, v.b, s.a);
    HalfCounts(codec, v, v.b, v.a, s.b);
  }

  lemma RelatedHalves(codec: Codec, w: World, s: Rotation.Sys)
    requires Related(codec, w, s)
    ensures Half(codec, w.relay, w.a, w.b, s.a) && Half(codec, w.relay, w.b, w.a, s.b)
  {
    hide Half, Names.Less, Routing.Indexed;
  }

  lemma HalfCounts(codec: Codec, w: World, x: End, y: End, n: Rotation.Node)
    requires Half(codec, w.relay, x, y, n)
    ensures LoggedIn(w.relay, x) && y.fd in w.relay.conns
    ensures AccountOf(x.view.shown, y.name) == Account(n.got, n.sent, n.failed + n.refused)
    ensures Quiet(w, x, y) ==> n.out == []
  {
    hide Sane, Matches, To, Routing.Heard, AccountOf, Tagged, Wire.TextOf, Grammar.Username;
    if Quiet(w, x, y) {
      assert x.view.sent[..x.taken] == x.view.sent;
      assert Gone(x, y) + TextsOf(codec, n.out) == Gone(x, y);
      assert |TextsOf(codec, n.out)| == |n.out|;
    }
  }

  /**
   * Whenever both users are in session with each other, their fingerprints agree
   * if and only if their epoch numbers do, and if and only if they hold the same
   * keys and salt.
   */
  lemma SameFingerprint(codec: Codec, w: World, steps: seq<Step>, t: Timing)
    requires Begins(w) && LegalRun(w, steps, codec, t)
    ensures var v := Run(w, steps, codec, t);
            InSession(v.a.view, v.b.name) && InSession(v.b.view, v.a.name) ==>
              var p, q := v.a.view.peers[v.b.name].cur, v.b.view.peers[v.a.name].cur;
              && (p.fp == q.fp <==> p.n == q.n)
              && (p.fp == q.fp <==> Rotation.Uncounted(p) == Rotation.Uncounted(q))
  {
    BeginsRelated(codec, w);
    hide *;
    var r := RunFollows(codec, w, steps, Rotation.Initial(), t);
    var v := Run(w, steps, codec, t);
    var s := Rotation.Run(Rotation.Initial(), r, t);
    Rotation.RunKeeps(Rotation.Initial(), r, t);
    NoSecrets();
    RunFull(Rotation.Initial(), r, t);
    RelatedHalves(codec, v, s);
    HalfMatches(codec, v.relay, v.a, v.b, s.a);
    HalfMatches(codec, v.relay, v.b, v.a, s.b);
    MatchesEntry(v.a.view, v.b.name, s.a);
    MatchesEntry(v.b.view, v.a.name, s.b);
    InSessionEntry(v.a.view, v.b.name);
    InSessionEntry(v.b.view, v.a.name);
    SameNumberSameKeys(s);
    if InSession(v.a.view, v.b.name) && InSession(v.b.view, v.a.name) {
      var p, q := v.a.view.peers[v.b.name].cur, v.b.view.peers[v.a.name].cur;
      UncountedParts(p, q);
      Fingerprint.PrintDetermines(p, q);
    }
  }

  lemma UncountedParts(p: Epoch, q: Epoch)
    ensures Rotation.Uncounted(p) == Rotation.Uncounted(q) ==> p.n == q.n && p.fp == q.fp
  {
  }

  predicate Full(secrets: seq<Bytes>) {
    forall i :: 0 <= i < |secrets| ==> |secrets[i]| == Dh.MODULUS_BYTES
  }

  lemma NoSecrets()
    ensures Full(Rotation.Initial().secrets) && Rotation.Inv(Rotation.Initial())
  {
  }

  lemma {:induction false} RunFull(s: Rotation.Sys, steps: seq<Rotation.Step>, t: Timing)
    requires Full(s.secrets)
    ensures Full(Rotation.Run(s, steps, t).secrets)
    decreases |steps|
  {
    hide Rotation.Next;
    if steps == [] {
    } else {
      StepFull(s, steps[0], t);
      RunFull(Rotation.Next(s, steps[0], t), steps[1..], t);
    }
  }

  lemma StepFull(s: Rotation.Sys, step: Rotation.Step, t: Timing)
    requires Full(s.secrets)
    ensures Full(Rotation.Next(s, step, t).secrets)
  {
    hide Rotation.Started, Rotation.Ticked, Rotation.Said, Rotation.Received, Dh.SharedSecret;
  }

  lemma SameNumberSameKeys(s: Rotation.Sys)
    requires Rotation.Inv(s) && Full(s.secrets)
    ensures s.a.peer.Some? && s.a.peer.value.state == State.Up && s.b.peer.Some? && s.b.peer.value.state == State.Up ==>
              var p, q := s.a.peer.value.cur, s.b.peer.value.cur;
              && Fingerprint.IsDerived(p) && Fingerprint.IsDerived(q)
              && (p.n == q.n ==> Rotation.Uncounted(p) == Rotation.Uncounted(q))
  {
    hide Rotation.Inv, Rotation.U32, Fingerprint.IsDerived, Rotation.Uncounted;
    Rotation.InvAgrees(s);
    UpIsInstalled(s);
    Rotation.U32Facts(s.a.idx);
    Rotation.U32Facts(s.b.idx);
    HeldIsDerived(s);
  }

  lemma HeldIsDerived(s: Rotation.Sys)
    requires Rotation.Inv(s) && Full(s.secrets)
    ensures s.a.idx >= 0 ==> s.a.peer.Some? && Fingerprint.IsDerived(s.a.peer.value.cur)
    ensures s.b.idx >= 0 ==> s.b.peer.Some? && Fingerprint.IsDerived(s.b.peer.value.cur)
  {
    hide Rotation.Shaped, Fingerprint.IsDerived, Derive;
    if s.a.idx >= 0 {
      EpochIsDerived(s.a.peer.value.cur, s.a.idx, s.secrets);
    }
    if s.b.idx >= 0 {
      EpochIsDerived(s.b.peer.value.cur, s.b.idx, s.secrets);
    }
  }

  lemma EpochIsDerived(e: Epoch, i: int, secrets: seq<Bytes>)
    requires 0 <= i < |secrets| && Rotation.IsEpoch(e, i, secrets) && Full(secrets)
    ensures Fingerprint.IsDerived(e)
  {
    Rotation.DeriveHead(Rotation.U32(i), secrets[i]);
    hide Derive;
    assert Rotation.Uncounted(e) == Derive(Rotation.U32(i), secrets[i]);
  }

  lemma UpIsInstalled(s: Rotation.Sys)
    requires Rotation.Inv(s)
    ensures s.a.peer.Some? && s.a.peer.value.state == State.Up ==> s.a.idx >= 0
    ensures s.b.peer.Some? && s.b.peer.value.state == State.Up ==> s.b.idx >= 0
  {
    hide Rotation.Shaped, Derive;
  }

  // -------------------------------------------------- how such a world comes about

  /** A new connection logs in: it is greeted, and everybody else is told. */
  lemma JoinTells(s: Relay.State, fd: int, name: string)
    requires Routing.Indexed(s) && fd !in s.conns && name !in s.byName && Grammar.Username(name)
    ensures var t := Routing.Run(s, Sizes.Joining(fd, name));
            && Routing.Indexed(t) && Routing.Holds(t, fd, name) && t.conns[fd].lines == ["OK " + name]
            && !t.conns[fd].wantClose
            && forall d :: d in s.conns && s.conns[d].registered ==>
                             d in t.conns && Routing.Told(s.conns[d], t.conns[d], "INFO " + name + " joined")
  {
    var j := Sizes.Joining(fd, name);
    var s1 := Routing.Step(s, j[0]);
    var s2 := Routing.Step(s1, j[1]);
    Sizes.RunThree(s, j);
    Sizes.LoginParts(name);
    Routing.StepIndexed(s, j[0]);
    Routing.StepIndexed(s1, j[1]);
    Routing.StepIndexed(s2, j[2]);
    hide Grammar.Username, Grammar.Split, Relay.Login, Routing.Indexed;
    assert Routing.Step(s2, j[2]) == Relay.Login(s2, fd, name);
    NobodyHolds(s2, name);
    Routing.LoginDecides(s2, fd, name);
  }

  lemma NobodyHolds(s: Relay.State, name: string)
    requires Routing.Indexed(s) && name !in s.byName
    ensures forall d :: !Routing.Holds(s, d, name)
  {
    hide Grammar.Username;
  }

  /** Two users connect to a new relay and log in. */
  function Logins(a: string, b: string): seq<Routing.Event> {
    Sizes.Joining(1, a) + Sizes.Joining(2, b)
  }

  function NewEnd(name: string, fd: int): End {
    End(name, fd, View(map[], [], []), 0, [])
  }

  /** After that the two may begin. */
  lemma LoginsBegin(a: string, b: string)
    requires Grammar.Username(a) && Grammar.Username(b) && Names.Less(a, b)
    ensures Begins(World(NewEnd(a, 1), NewEnd(b, 2), Routing.Run(Routing.Empty(), Logins(a, b)), 0))
  {
    hide Grammar.Username, Names.Less, Routing.Step, Sizes.Joining, Routing.Run, Routing.Heard;
    var s := Routing.Run(Routing.Empty(), Sizes.Joining(1, a));
    Names.Trichotomy(a, b);
    Sizes.RunAppend(Routing.Empty(), Sizes.Joining(1, a), Sizes.Joining(2, b));
    Sizes.JoiningAdds(Routing.Empty(), 1, a);
    JoinTells(Routing.Empty(), 1, a);
    JoinTells(s, 2, b);
    GreetingsOnly(a, b);
  }

  lemma GreetingsOnly(a: string, b: string)
    ensures Routing.Heard(["OK " + b], a) == [] && Routing.Heard(["OK " + a] + ["INFO " + b + " joined"], b) == []
  {
    Routing.NoChat("OK " + a);
    Routing.NoChat("OK " + b);
    Routing.NoChat("INFO " + b + " joined");
    hide Grammar.Incoming;
    Routing.HeardOne([], "OK " + a, b);
    Routing.HeardOne([], "OK " + b, a);
    Routing.HeardOne(["OK " + a], "INFO " + b + " joined", b);
    assert [] + ["OK " + a] == ["OK " + a] && [] + ["OK " + b] == ["OK " + b];
  }
}
