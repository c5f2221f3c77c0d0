/**
 * Sweeping expired epochs is invisible: over whole runs, with or without the
 * timer's sweep, every handler and every `open` gives the same results.
 */
module Expiry {
  import opened Wrappers
  import opened ByteStrings
  import opened Crypto
  import opened E2e
  import opened NonceUse
  import Dh

  /** What the caller of a handler gets to see. */
  datatype Seen =
    | Started
    | Initiated(error: string, answer: Option<(nat, Bytes, seq<Octet>)>)
    | Acknowledged(outcome: Result<(nat, seq<Octet>)>)
    | SealedAs(payload: Result<ChatPayload>)
    | OpenedAs(text: Result<string>)
    | Due(init: Option<(nat, Bytes)>)

  /** The timer's pass, with its sweep or without. */
  function Timed(p: Peer, rnd: Option<nat>, now: int, t: Timing, sweep: bool): (Peer, Option<(nat, Bytes)>) {
    var (q, init) := TickPeer(p, rnd, now, t);
    (if sweep then q else q.(havePrev := p.havePrev), init)
  }

  function Handled(p: Option<Peer>, amA: bool, ev: Event, t: Timing, sweep: bool): (Option<Peer>, Seen) {
    match ev
    case EvStart(x, now) => (Some(StartPeer(amA, Dh.Ephemeral(x, Dh.PublicBytes(x)), now)), Started)
    case EvInit(epoch, theirs, rnd, now) =>
      (match OnInitPeer(p, amA, epoch, theirs, rnd, now, t.grace)
       case Refused(e, kept) => (kept, Initiated(e, None))
       case Ignored => (p, Initiated("", None))
       case Answered(q, pub) => (Some(q), Initiated("", Some((epoch, pub, q.cur.fp)))))
    case EvAck(epoch, theirs, now) =>
      (match OnAckPeer(p, Some((epoch, theirs)), now, t.grace)
       case Err(e) => (p, Acknowledged(Err(e)))
       case Ok(q) => (Some(q), Acknowledged(Ok((q.cur.n, q.cur.fp)))))
    case EvSeal(text) =>
      (match SealPeer(p, text)
       case Err(e) => (p, SealedAs(Err(e)))
       case Ok((q, m)) => (Some(q), SealedAs(Ok(m))))
    case EvOpen(m, now) =>
      (match OpenPeer(p, m, now)
       case Err(e) => (p, OpenedAs(Err(e)))
       case Ok((q, text)) => (Some(q), OpenedAs(Ok(text))))
    case EvTick(rnd, now) =>
      if p.None? then (p, Due(None))
      else
        var (q, init) := Timed(p.value, rnd, now, t, sweep);
        (Some(q), Due(init))
  }

  function Results(p: Option<Peer>, amA: bool, evs: seq<Event>, t: Timing, sweep: bool): seq<Seen>
    decreases |evs|
  {
    if evs == [] then []
    else
      var (q, seen) := Handled(p, amA, evs[0], t, sweep);
      [seen] + Results(q, amA, evs[1..], t, sweep)
  }

  function Clock(ev: Event, now: int): int {
    match ev
    case EvSeal(_) => now
    case _ => ev.now
  }

  /** The clock does not run backwards. */
  predicate InOrder(evs: seq<Event>, now: int)
    decreases |evs|
  {
    evs == [] || (now <= Clock(evs[0], now) && InOrder(evs[1..], Clock(evs[0], now)))
  }

  /** The same entry, except that q may still remember an epoch whose window has closed. */
  predicate Swept(p: Option<Peer>, q: Option<Peer>, now: int) {
    && (p.Some? <==> q.Some?)
    && (p.Some? ==>
          && p.value == q.value.(havePrev := p.value.havePrev)
          && (p.value.havePrev ==> q.value.havePrev)
          && (q.value.havePrev && !p.value.havePrev ==> q.value.graceUntil <= now))
  }

  lemma Later(p: Option<Peer>, q: Option<Peer>, now: int, later: int)
    requires Swept(p, q, now) && now <= later
    ensures Swept(p, q, later)
  {
  }

  lemma Unswept(p: Option<Peer>, now: int)
    ensures Swept(p, p, now)
  {
  }

  lemma HandledAlike(p: Option<Peer>, q: Option<Peer>, amA: bool, ev: Event, t: Timing, now: int)
    requires Swept(p, q, now) && now <= Clock(ev, now)
    ensures var (p', a) := Handled(p, amA, ev, t, true);
            var (q', b) := Handled(q, amA, ev, t, false);
            a == b && Swept(p', q', Clock(ev, now))
  {
    Later(p, q, now, Clock(ev, now));
    hide OnInitPeer, OnAckPeer, SealPeer, OpenPeer, Timed, Swept, StartPeer, Dh.PublicBytes;
    match ev
    case EvStart(_, at) => Unswept(Handled(p, amA, ev, t, true).0, at);
    case EvInit(epoch, theirs, rnd, at) => InitAlike(p, q, amA, epoch, theirs, rnd, at, t);
    case EvAck(epoch, theirs, at) => AckAlike(p, q, epoch, theirs, at, t);
    case EvSeal(text) => SealAlike(p, q, text, now);
    case EvOpen(m, at) => OpenAlike(p, q, m, at);
    case EvTick(rnd, at) => TickAlike(p, q, rnd, at, t);
  }

  /** A new epoch puts the old one in the place of whatever was remembered. */
  lemma InitAlike(p: Option<Peer>, q: Option<Peer>, amA: bool, epoch: nat, theirs: Bytes, rnd: Option<nat>, now: int,
                  t: Timing)
    requires Swept(p, q, now)
    ensures match (OnInitPeer(p, amA, epoch, theirs, rnd, now, t.grace),
                   OnInitPeer(q, amA, epoch, theirs, rnd, now, t.grace))
            case (Refused(e, k), Refused(f, l)) => e == f && Swept(k, l, now)
            case (Ignored, Ignored) => true
            case (Answered(k, x), Answered(l, y)) => k == l && x == y
            case _ => false
  {
    hide Derive, Dh.SharedSecret, Dh.PublicBytes;
  }

  lemma AckAlike(p: Option<Peer>, q: Option<Peer>, epoch: nat, theirs: Bytes, now: int, t: Timing)
    requires Swept(p, q, now)
    ensures match (OnAckPeer(p, Some((epoch, theirs)), now, t.grace), OnAckPeer(q, Some((epoch, theirs)), now, t.grace))
            case (Err(e), Err(f)) => e == f
            case (Ok(k), Ok(l)) => k.cur == l.cur && Swept(Some(k), Some(l), now)
            case _ => false
  {
    hide Derive, Dh.SharedSecret;
  }

  lemma SealAlike(p: Option<Peer>, q: Option<Peer>, text: string, now: int)
    requires Swept(p, q, now)
    ensures match (SealPeer(p, text), SealPeer(q, text))
            case (Err(e), Err(f)) => e == f
            case (Ok((k, m)), Ok((l, n))) => m == n && Swept(Some(k), Some(l), now)
            case _ => false
  {
    hide NonceOf;
  }

  lemma OpenAlike(p: Option<Peer>, q: Option<Peer>, m: ChatPayload, now: int)
    requires Swept(p, q, now)
    ensures match (OpenPeer(p, m, now), OpenPeer(q, m, now))
            case (Err(e), Err(f)) => e == f
            case (Ok((k, x)), Ok((l, y))) => x == y && Swept(Some(k), Some(l), now)
            case _ => false
  {
    hide OpenUnder;
  }

  lemma TickAlike(p: Option<Peer>, q: Option<Peer>, rnd: Option<nat>, now: int, t: Timing)
    requires Swept(p, q, now)
    ensures p.Some? ==>
              var (k, x) := Timed(p.value, rnd, now, t, true);
              var (l, y) := Timed(q.value, rnd, now, t, false);
              x == y && Swept(Some(k), Some(l), now)
  {
    hide Dh.PublicBytes;
  }

  lemma {:induction false} ResultsAlike(p: Option<Peer>, q: Option<Peer>, amA: bool, evs: seq<Event>, t: Timing, now: int)
    requires Swept(p, q, now) && InOrder(evs, now)
    ensures Results(p, amA, evs, t, true) == Results(q, amA, evs, t, false)
    decreases |evs|
  {
    hide Swept, Handled;
    if evs == [] {
    } else {
      HandledAlike(p, q, amA, evs[0], t, now);
      ResultsAlike(Handled(p, amA, evs[0], t, true).0, Handled(q, amA, evs[0], t, false).0, amA, evs[1..], t,
                   Clock(evs[0], now));
    }
  }

  /**
   * From any entry and for any events, whatever the network does: forgetting
   * expired epochs never changes what a handler reports or an `open` returns.
   */
  lemma SweepIsInvisible(p: Option<Peer>, amA: bool, evs: seq<Event>, t: Timing, now: int)
    requires InOrder(evs, now)
    ensures Results(p, amA, evs, t, true) == Results(p, amA, evs, t, false)
  {
    ResultsAlike(p, p, amA, evs, t, now);
  }

  /** With its sweep this is the entry that the rest of the model speaks of. */
  lemma HandledIsAfter(s: Entry, ev: Event, t: Timing)
    ensures Handled(s.peer, s.amA, ev, t, true).0 == After(s, ev, t).peer
  {
    hide Derive, Dh.SharedSecret, Dh.PublicBytes, NonceOf, OnInitPeer, OnAckPeer, SealPeer, OpenPeer, TickPeer;
  }
}
