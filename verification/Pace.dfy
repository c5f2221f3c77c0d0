/**
 * When keys are renegotiated: exactly when the timer begins a rotation, how
 * long every epoch lasts at least, and that the b-side only steps in when the
 * a-side has been silent.
 */
module Pace {
  import opened Wrappers
  import opened ByteStrings
  import opened Crypto
  import opened E2e
  import opened Rotation
  import Dh
  import Names

  /** The seconds a side waits on an epoch before it begins the next one. */
  function Period(amA: bool, t: Timing): nat {
    if amA then t.rekey else t.fallback
  }

  // ------------------------------------------------------------- one timer pass

  /** The entry is in session with no INIT out, and its side's period has passed since its epoch was installed. */
  predicate HasWaited(p: Peer, now: int, t: Timing) {
    p.state == Up && !p.rotating && Period(p.amA, t) * SECOND <= now - p.epochStart
  }

  /**
   * On a clock that does not run backwards, a pass of the timer begins a rotation
   * if and only if the period has passed and a key pair could be generated; the
   * INIT carries the next number and that pair. It forgets the previous epoch if
   * and only if its window has closed, and changes nothing else.
   */
  lemma TimerLaw(p: Peer, rnd: Option<nat>, now: int, t: Timing)
    requires p.epochStart <= now
    ensures var (q, init) := TickPeer(p, rnd, now, t);
            && (init.Some? <==> HasWaited(p, now, t) && rnd.Some?)
            && (init.Some? ==>
                  && init.value == ((p.cur.n + 1) % TWO_32, Dh.PublicBytes(rnd.value))
                  && q.rotating && q.nextEpoch == init.value.0 && q.nextKp == Dh.Ephemeral(rnd.value, init.value.1))
            && (q.havePrev <==> p.havePrev && now < p.graceUntil)
            && q == p.(havePrev := q.havePrev, rotating := q.rotating, nextEpoch := q.nextEpoch, nextKp := q.nextKp,
                       rotSent := q.rotSent)
            && (init.None? ==> q == p.(havePrev := q.havePrev))
  {
    hide Dh.PublicBytes;
    WholeSecondsReach(now - p.epochStart, Period(p.amA, t));
  }

  lemma WholeSecondsReach(d: int, n: nat)
    requires d >= 0
    ensures WholeSeconds(d) >= n <==> n * SECOND <= d
  {
  }

  lemma RelayOf(k: string, init: Option<(nat, Bytes)>)
    ensures init.None? ==> Relay(k, init) == []
    ensures init.Some? ==> Relay(k, init) == [Action(k, TAG_INIT + KexText(init.value.0, init.value.1))]
  {
  }

  lemma {:induction false} ActionsOf(names: seq<string>, ps: map<string, Peer>, rnd: map<string, nat>, now: int, t: Timing,
                                     a: Action)
    requires forall k :: k in names ==> k in ps
    ensures a in Actions(names, ps, rnd, now, t) <==>
              && a.peer in names
              && var init := TickPeer(ps[a.peer], Draw(rnd, a.peer), now, t).1;
                 init.Some? && a.payload == TAG_INIT + KexText(init.value.0, init.value.1)
  {
    hide TickPeer, KexText, Relay;
    if names == [] {
    } else {
      var k := names[|names| - 1];
      ActionsOf(names[..|names| - 1], ps, rnd, now, t, a);
      RelayOf(k, TickPeer(ps[k], Draw(rnd, k), now, t).1);
      assert names == names[..|names| - 1] + [k];
    }
  }

  /** What the timer sends: exactly one INIT for every peer whose period has passed and for whom a pair was generated. */
  lemma InitsLaw(ps: map<string, Peer>, rnd: map<string, nat>, now: int, t: Timing, a: Action)
    requires forall k :: k in ps ==> ps[k].epochStart <= now
    ensures a in Inits(ps, rnd, now, t) <==>
              && a.peer in ps && a.peer in rnd && HasWaited(ps[a.peer], now, t)
              && a.payload == TAG_INIT + KexText((ps[a.peer].cur.n + 1) % TWO_32, Dh.PublicBytes(rnd[a.peer]))
  {
    var names := Names.Ordered(ps.Keys);
    ActionsOf(names, ps, rnd, now, t, a);
    hide TickPeer, KexText, Dh.PublicBytes, Names.Ordered, HasWaited, Actions;
    if a.peer in ps {
      TimerLaw(ps[a.peer], Draw(rnd, a.peer), now, t);
    }
  }

  /** Actions for these names only, each after those for smaller names. */
  predicate InOrder(out: seq<Action>, names: seq<string>) {
    && (forall i :: 0 <= i < |out| ==> out[i].peer in names)
    && forall i, j :: 0 <= i < j < |out| ==> Names.Less(out[i].peer, out[j].peer)
  }

  lemma OneMoreInOrder(out: seq<Action>, names: seq<string>, k: string, more: seq<Action>)
    requires InOrder(out, names) && Names.Ascending(names + [k]) && (more == [] || (|more| == 1 && more[0].peer == k))
    ensures InOrder(out + more, names + [k])
  {
    hide Names.Less;
    forall x | x in names ensures Names.Less(x, k) {
      var i :| 0 <= i < |names| && names[i] == x;
      assert (names + [k])[i] == x && (names + [k])[|names|] == k;
    }
  }

  lemma {:induction false} ActionsInOrder(names: seq<string>, ps: map<string, Peer>, rnd: map<string, nat>, now: int,
                                          t: Timing)
    requires (forall k :: k in names ==> k in ps) && Names.Ascending(names)
    ensures InOrder(Actions(names, ps, rnd, now, t), names)
  {
    hide TickPeer, KexText, Relay, Names.Less, InOrder;
    if names == [] {
      NoneInOrder();
    } else {
      var front, k := names[..|names| - 1], names[|names| - 1];
      var init := TickPeer(ps[k], Draw(rnd, k), now, t).1;
      ActionsInOrder(front, ps, rnd, now, t);
      RelayOf(k, init);
      assert names == front + [k];
      OneMoreInOrder(Actions(front, ps, rnd, now, t), front, k, Relay(k, init));
    }
  }

  lemma NoneInOrder()
    ensures InOrder([], [])
  {
  }

  /** At most one INIT for a peer, and in the byte order of the peers' names. */
  lemma InitsInOrder(ps: map<string, Peer>, rnd: map<string, nat>, now: int, t: Timing, i: nat, j: nat)
    requires i < j < |Inits(ps, rnd, now, t)|
    ensures Names.Precedes(Inits(ps, rnd, now, t)[i].peer, Inits(ps, rnd, now, t)[j].peer)
  {
    var out := Inits(ps, rnd, now, t);
    ActionsInOrder(Names.Ordered(ps.Keys), ps, rnd, now, t);
    assert InOrder(out, Names.Ordered(ps.Keys));
    Names.LessIsByteOrder(out[i].peer, out[j].peer);
    hide Names.Less, Names.Precedes, Inits, Actions;
  }

  // ------------------------------------------------------------------- whole runs

  /** For each side, when it installed its epochs 0, 1, 2, ... */
  datatype Log = Log(a: seq<int>, b: seq<int>)

  function Times(l: Log, side: Side): seq<int> {
    if side == A then l.a else l.b
  }

  function Noted(times: seq<int>, n: Node, m: Node, now: int): seq<int> {
    if m.idx > n.idx then times + [now] else times
  }

  /** One step from s to u. */
  function Extended(l: Log, s: Sys, u: Sys): Log {
    Log(Noted(l.a, s.a, u.a, s.now), Noted(l.b, s.b, u.b, s.now))
  }

  function LogOf(l: Log, s: Sys, steps: seq<Step>, t: Timing): Log
    decreases |steps|
  {
    if steps == [] then l else LogOf(Extended(l, s, Next(s, steps[0], t)), Next(s, steps[0], t), steps[1..], t)
  }

  ghost predicate PacedNode(n: Node, amA: bool, times: seq<int>, now: int, t: Timing) {
    && |times| == n.idx + 1
    && (forall i, j :: 0 <= i <= j < |times| ==> times[i] <= times[j] <= now)
    && (n.idx >= 0 ==> n.peer.Some? && n.peer.value.epochStart == times[n.idx])
    && (forall f :: f in n.out && f.msg.Init? && f.idx >= 1 ==>
          f.idx <= |times| && times[f.idx - 1] + Period(amA, t) * SECOND <= f.at)
  }

  ghost predicate Paced(s: Sys, l: Log, t: Timing) {
    PacedNode(s.a, true, l.a, s.now, t) && PacedNode(s.b, false, l.b, s.now, t)
  }

  lemma WaitPaced(n: Node, amA: bool, times: seq<int>, now: int, later: int, t: Timing)
    requires PacedNode(n, amA, times, now, t) && now <= later
    ensures PacedNode(n, amA, times, later, t)
  {
  }

  lemma DequeuedPaced(n: Node, amA: bool, times: seq<int>, now: int, t: Timing)
    requires PacedNode(n, amA, times, now, t) && n.out != []
    ensures PacedNode(n.(out := n.out[1..]), amA, times, now, t)
  {
  }

  lemma StartPaced(n: Node, amA: bool, times: seq<int>, x: nat, now: int, t: Timing, secrets: seq<Bytes>)
    requires PacedNode(n, amA, times, now, t) && Settled(n, amA, secrets) && n.peer.None?
    ensures PacedNode(Started(n, amA, x, now), amA, times, now, t)
  {
    hide Dh.PublicBytes, Dh.ValidPublic;
  }

  lemma TickPaced(n: Node, amA: bool, times: seq<int>, rnd: Option<nat>, now: int, t: Timing, secrets: seq<Bytes>)
    requires PacedNode(n, amA, times, now, t) && Settled(n, amA, secrets)
    ensures var m := Ticked(n, rnd, now, t); m.idx == n.idx && PacedNode(m, amA, times, now, t)
  {
    hide Dh.PublicBytes, Dh.ValidPublic, Derive;
    if n.peer.Some? && n.idx >= 0 {
      TimerLaw(n.peer.value, rnd, now, t);
      hide TickPeer;
    }
  }

  lemma SaidPaced(n: Node, amA: bool, times: seq<int>, text: string, now: int, t: Timing)
    requires PacedNode(n, amA, times, now, t)
    ensures var m := Said(n, text, now); m.idx == n.idx && PacedNode(m, amA, times, now, t)
  {
    hide NonceOf;
  }

  lemma ReceivedPaced(n: Node, amA: bool, times: seq<int>, msg: Msg, x: nat, now: int, t: Timing)
    requires PacedNode(n, amA, times, now, t)
    ensures var m := Received(n, amA, msg, x, now, t);
            n.idx <= m.idx <= n.idx + 1 && PacedNode(m, amA, Noted(times, n, m, now), now, t)
  {
    hide OnInitPeer, OnAckPeer, OpenPeer, PacedNode;
    var m := Received(n, amA, msg, x, now, t);
    match msg
    case Init(epoch, pub) =>
      InitStarts(n.peer, amA, epoch, pub, x, now, t.grace);
      if m.idx > n.idx {
        InstallPaced(n, m, amA, times, now, t);
      } else {
        IdlePaced(n, m, amA, times, now, t);
      }
    case Ack(epoch, pub) =>
      AckStarts(n.peer, epoch, pub, now, t.grace);
      if m.idx > n.idx {
        InstallPaced(n, m, amA, times, now, t);
      } else {
        IdlePaced(n, m, amA, times, now, t);
      }
    case Text(c) =>
      OpenStarts(n.peer, c, now);
      IdlePaced(n, m, amA, times, now, t);
  }

  /** An epoch was installed now, and at most an ACK put on the channel. */
  lemma InstallPaced(n: Node, m: Node, amA: bool, times: seq<int>, now: int, t: Timing)
    requires PacedNode(n, amA, times, now, t)
    requires m.idx == n.idx + 1 && m.peer.Some? && m.peer.value.epochStart == now
    requires m.out == n.out || exists f: Flight :: m.out == n.out + [f] && !f.msg.Init?
    ensures PacedNode(m, amA, times + [now], now, t)
  {
  }

  /** Nothing was installed or sent. */
  lemma IdlePaced(n: Node, m: Node, amA: bool, times: seq<int>, now: int, t: Timing)
    requires PacedNode(n, amA, times, now, t) && m.idx == n.idx && m.out == n.out
    requires n.peer.Some? ==> m.peer.Some? && m.peer.value.epochStart == n.peer.value.epochStart
    ensures PacedNode(m, amA, times, now, t)
  {
  }

  /** An epoch installed is one that starts now; anything else leaves the time as it was. */
  lemma InitStarts(p: Option<Peer>, amA: bool, epoch: nat, theirs: Bytes, x: nat, now: int, grace: nat)
    ensures match OnInitPeer(p, amA, epoch, theirs, Some(x), now, grace)
            case Answered(q, _) => q.epochStart == now
            case Refused(_, kept) => kept == p || (p.Some? && kept == Some(p.value.(rotating := false)))
            case Ignored => true
  {
    hide Derive, Dh.SharedSecret, Dh.PublicBytes;
  }

  lemma AckStarts(p: Option<Peer>, epoch: nat, theirs: Bytes, now: int, grace: nat)
    ensures var r := OnAckPeer(p, Some((epoch, theirs)), now, grace); r.Ok? ==> r.value.epochStart == now
  {
    hide Derive, Dh.SharedSecret;
  }

  lemma OpenStarts(p: Option<Peer>, c: ChatPayload, now: int)
    ensures var r := OpenPeer(p, c, now); r.Ok? ==> p.Some? && r.value.0.epochStart == p.value.epochStart
  {
    hide OpenUnder;
  }

  lemma StepPaced(s: Sys, step: Step, l: Log, t: Timing)
    requires Inv(s) && Legal(s, step) && Paced(s, l, t)
    ensures Paced(Next(s, step, t), Extended(l, s, Next(s, step, t)), t)
    ensures s.now <= Next(s, step, t).now
  {
    hide PacedNode, Started, Ticked, Said, Received, Settled, Shaped, Recorded, Honest;
    match step
    case Wait(d) =>
      WaitPaced(s.a, true, l.a, s.now, s.now + d, t);
      WaitPaced(s.b, false, l.b, s.now, s.now + d, t);
    case Start(side, x) =>
      StartedIdx(At(s, side), side == A, x, s.now);
      StartPaced(At(s, side), side == A, Times(l, side), x, s.now, t, s.secrets);
    case Tick(side, rnd) => TickPaced(At(s, side), side == A, Times(l, side), rnd, s.now, t, s.secrets);
    case Say(side, text) => SaidPaced(At(s, side), side == A, Times(l, side), text, s.now, t);
    case Deliver(side, x) =>
      var from := At(s, Other(side));
      ReceivedPaced(At(s, side), side == A, Times(l, side), from.out[0].msg, x, s.now, t);
      DequeuedPaced(from, side != A, Times(l, Other(side)), s.now, t);
  }

  lemma StartedIdx(n: Node, amA: bool, x: nat, now: int)
    ensures Started(n, amA, x, now).idx == n.idx
  {
  }

  lemma {:induction false} RunPaced(s: Sys, steps: seq<Step>, l: Log, t: Timing)
    requires Inv(s) && LegalRun(s, steps, t) && Paced(s, l, t)
    ensures Paced(Run(s, steps, t), LogOf(l, s, steps, t), t) && Inv(Run(s, steps, t)) && s.now <= Run(s, steps, t).now
    decreases |steps|
  {
    hide Inv, Legal, Next, Paced, Extended;
    if steps == [] {
    } else {
      StepKeeps(s, steps[0], t);
      StepPaced(s, steps[0], l, t);
      RunPaced(Next(s, steps[0], t), steps[1..], Extended(l, s, Next(s, steps[0], t)), t);
    }
  }

  lemma InitialPaced(t: Timing)
    ensures Inv(Initial()) && Paced(Initial(), Log([], []), t)
  {
  }

  /**
   * In every run, a side has installed as many epochs as its index says, in the
   * order of time, and every INIT in flight for an epoch above 0 was sent at least
   * its side's period after that side had installed the epoch before.
   */
  lemma EpochsLast(steps: seq<Step>, t: Timing, side: Side, i: nat)
    requires LegalRun(Initial(), steps, t)
    ensures var n := At(Run(Initial(), steps, t), side);
            var times := Times(LogOf(Log([], []), Initial(), steps, t), side);
            && |times| == n.idx + 1
            && (i < |n.out| && n.out[i].msg.Init? && n.out[i].idx >= 1 ==>
                  n.out[i].idx <= |times| && times[n.out[i].idx - 1] + Period(side == A, t) * SECOND <= n.out[i].at)
  {
    InitialPaced(t);
    RunPaced(Initial(), steps, Log([], []), t);
  }

  // ------------------------------------------------------------------ the fallback

  /** The time at which b installed its latest epoch never goes back. */
  ghost predicate HeardSince(s: Sys, since: int) {
    s.b.idx >= 0 && s.b.peer.Some? && since <= s.b.peer.value.epochStart <= s.now
  }

  lemma StepHeardSince(s: Sys, step: Step, t: Timing, since: int)
    requires Inv(s) && Legal(s, step) && HeardSince(s, since)
    ensures HeardSince(Next(s, step, t), since)
  {
    hide Derive, Dh.SharedSecret, Dh.PublicBytes, Dh.ValidPublic, OpenUnder, NonceOf, Shaped;
  }

  lemma {:induction false} RunHeardSince(s: Sys, steps: seq<Step>, t: Timing, since: int)
    requires Inv(s) && LegalRun(s, steps, t) && HeardSince(s, since)
    ensures HeardSince(Run(s, steps, t), since) && Inv(Run(s, steps, t))
    decreases |steps|
  {
    hide Inv, Legal, Next, HeardSince;
    if steps == [] {
    } else {
      StepKeeps(s, steps[0], t);
      StepHeardSince(s, steps[0], t, since);
      RunHeardSince(Next(s, steps[0], t), steps[1..], t, since);
    }
  }

  /** b answers every INIT of a that reaches it, and installs an epoch then. */
  lemma HearingInstalls(s: Sys, x: nat, t: Timing)
    requires Inv(s) && Legal(s, Deliver(B, x)) && s.a.out[0].msg.Init?
    ensures HeardSince(Next(s, Deliver(B, x), t), s.now)
  {
    SeenFromEitherSide(s, B);
    NeverStale(s.b, s.a, s.secrets);
    InitAnswered(s.b, s.a, false, x, s.now, t, s.secrets);
    ReceivedPacing(s.b, s.a.out[0].msg, x, s.now, t);
    hide Received, Inv, Sound;
  }

  lemma NeverStale(b: Node, a: Node, secrets: seq<Bytes>)
    requires a.out != [] && a.out[0].msg.Init?
    ensures !Ahead(b, a, false, secrets)
  {
    hide Dh.SharedSecret;
    assert Kex(a.out)[0] == a.out[0];
  }

  lemma ReceivedPacing(n: Node, msg: Msg, x: nat, now: int, t: Timing)
    requires n.idx >= -1 && Received(n, false, msg, x, now, t).idx > n.idx
    ensures var m := Received(n, false, msg, x, now, t);
            m.idx >= 0 && m.peer.Some? && m.peer.value.epochStart == now
  {
    hide Derive, Dh.SharedSecret, Dh.PublicBytes, OpenUnder;
  }

  /** A pass of the timer begins a rotation. */
  predicate Begins(n: Node, rnd: Option<nat>, now: int, t: Timing) {
    !Rotating(n) && Rotating(Ticked(n, rnd, now, t))
  }

  /**
   * If b begins a rotation after some run, then every INIT of a that b has ever
   * handled was handled at least the fallback time before: b steps in only when a
   * has been silent for that long.
   */
  lemma SilenceBeforeFallback(before: seq<Step>, x: nat, after: seq<Step>, rnd: Option<nat>, t: Timing)
    requires LegalRun(Initial(), before, t)
    requires var s := Run(Initial(), before, t);
             && s.a.out != [] && s.a.out[0].msg.Init? && Legal(s, Deliver(B, x))
             && LegalRun(Next(s, Deliver(B, x), t), after, t)
             && var u := Run(Next(s, Deliver(B, x), t), after, t); Begins(u.b, rnd, u.now, t)
    ensures var s := Run(Initial(), before, t);
            var u := Run(Next(s, Deliver(B, x), t), after, t);
            s.now + t.fallback * SECOND <= u.now
  {
    InitialPaced(t);
    RunKeeps(Initial(), before, t);
    hide Inv, Next, Run, LegalRun, Legal, Ticked;
    var s := Run(Initial(), before, t);
    HearingInstalls(s, x, t);
    StepKeeps(s, Deliver(B, x), t);
    RunHeardSince(Next(s, Deliver(B, x), t), after, t, s.now);
    var u := Run(Next(s, Deliver(B, x), t), after, t);
    BeginsHasWaited(u, rnd, t);
  }

  lemma BeginsHasWaited(s: Sys, rnd: Option<nat>, t: Timing)
    requires Inv(s) && s.b.peer.Some? && s.b.peer.value.epochStart <= s.now && Begins(s.b, rnd, s.now, t)
    ensures s.b.peer.value.epochStart + t.fallback * SECOND <= s.now
  {
    TimerLaw(s.b.peer.value, rnd, s.now, t);
    hide TickPeer, Derive, Dh.PublicBytes, Dh.ValidPublic, Shaped;
  }
}
