/**
 * A whole Manager with any number of peers under an arbitrary network. Uses of
 * one key and nonce for two different peers are possible, and characterised
 * exactly; they do not happen as long as no INIT or ACK carries a public value
 * that this Manager generated itself.
 */
module ManagerUse {
  import opened Wrappers
  import opened ByteStrings
  import opened Crypto
  import opened E2e
  import opened NonceUse
  import HashInputs
  import Names
  import Dh

  /** The entries by peer name, and every public value generated here or received so far. */
  datatype Book = Book(entries: map<string, Entry>, known: set<Bytes>)

  /** An event at the Manager, for the peer it concerns. */
  datatype Call = Call(name: string, ev: Event)

  /** The entry as the next event finds it. */
  function Face(b: Book, me: string, name: string): Entry {
    (if name in b.entries then b.entries[name] else Unused(Names.Less(me, name))).(known := b.known)
  }

  /** A session with oneself is refused; every other event concerns its own entry only. */
  function Next(b: Book, me: string, c: Call, t: Timing): Book {
    if c.ev.EvStart? && c.name == me then b
    else
      var e := After(Face(b, me, c.name), c.ev, t);
      Book(b.entries[c.name := e], e.known)
  }

  predicate Sensible(b: Book, me: string, c: Call) {
    Allowed(Face(b, me, c.name), c.ev)
  }

  function Run(b: Book, me: string, calls: seq<Call>, t: Timing): Book
    decreases |calls|
  {
    if calls == [] then b else Run(Next(b, me, calls[0], t), me, calls[1..], t)
  }

  predicate AllSensible(b: Book, me: string, calls: seq<Call>, t: Timing)
    decreases |calls|
  {
    calls == [] || (Sensible(b, me, calls[0]) && AllSensible(Next(b, me, calls[0], t), me, calls[1..], t))
  }

  function Blank(): Book {
    Book(map[], {})
  }

  // ---------------------------------------------------- the class behind the book

  function PeersOf(b: Book): map<string, Peer> {
    map k | k in b.entries && b.entries[k].peer.Some? :: b.entries[k].peer.value
  }

  /** The Manager's map after an event for the peer, as its methods' contracts state it. */
  function Managed(ps: map<string, Peer>, me: string, c: Call, t: Timing): map<string, Peer> {
    var p := Lookup(ps, c.name);
    var amA := Names.Less(me, c.name);
    match c.ev
    case EvStart(x, now) =>
      if c.name == me then ps else ps[c.name := StartPeer(amA, Dh.Ephemeral(x, Dh.PublicBytes(x)), now)]
    case EvInit(epoch, theirs, rnd, now) =>
      (match OnInitPeer(p, amA, epoch, theirs, rnd, now, t.grace)
       case Refused(_, kept) => Keep(ps, c.name, kept)
       case Ignored => ps
       case Answered(q, _) => ps[c.name := q])
    case EvAck(epoch, theirs, now) =>
      (match OnAckPeer(p, Some((epoch, theirs)), now, t.grace)
       case Err(_) => ps
       case Ok(q) => ps[c.name := q])
    case EvSeal(text) =>
      (match SealPeer(p, text)
       case Err(_) => ps
       case Ok((q, _)) => ps[c.name := q])
    case EvOpen(m, now) =>
      (match OpenPeer(p, m, now)
       case Err(_) => ps
       case Ok((q, _)) => ps[c.name := q])
    case EvTick(rnd, now) => if p.None? then ps else ps[c.name := TickPeer(p.value, rnd, now, t).0]
  }

  /** What the Manager's methods do to its map is what the book does to its entries. */
  lemma BookIsManager(b: Book, me: string, c: Call, t: Timing)
    requires forall k :: k in b.entries ==> b.entries[k].amA == Names.Less(me, k)
    ensures PeersOf(Next(b, me, c, t)) == Managed(PeersOf(b), me, c, t)
  {
    if c.ev.EvStart? && c.name == me {
    } else {
      var e := Face(b, me, c.name);
      assert e.peer == Lookup(PeersOf(b), c.name) && e.amA == Names.Less(me, c.name);
      EntryIsManaged(PeersOf(b), me, c, e, t);
      hide After, Managed, Names.Less;
      var n := Next(b, me, c, t);
      assert forall k :: k != c.name ==> Lookup(PeersOf(n), k) == Lookup(PeersOf(b), k);
      assert Lookup(PeersOf(n), c.name) == After(e, c.ev, t).peer;
      SameMap(PeersOf(n), Managed(PeersOf(b), me, c, t));
    }
  }

  lemma EntryIsManaged(ps: map<string, Peer>, me: string, c: Call, e: Entry, t: Timing)
    requires e.peer == Lookup(ps, c.name) && e.amA == Names.Less(me, c.name)
    requires !(c.ev.EvStart? && c.name == me)
    ensures var qs := Managed(ps, me, c, t);
            && Lookup(qs, c.name) == After(e, c.ev, t).peer
            && forall k :: k != c.name ==> Lookup(qs, k) == Lookup(ps, k)
  {
    hide OnAckPeer, SealPeer, OpenPeer, TickPeer, StartPeer, Derive, Dh.SharedSecret, Dh.PublicBytes, Names.Less;
    if c.ev.EvInit? {
      KeptPeer(e.peer, c.ev, e.amA, t);
      hide OnInitPeer;
    }
  }

  lemma SameMap(ps: map<string, Peer>, qs: map<string, Peer>)
    requires forall k :: Lookup(ps, k) == Lookup(qs, k)
    ensures ps == qs
  {
    assert forall k :: (k in ps <==> Lookup(ps, k).Some?) && (k in qs <==> Lookup(qs, k).Some?);
    assert forall k :: k in ps ==> Lookup(ps, k) == Some(ps[k]) && Lookup(qs, k) == Some(qs[k]);
  }

  /** A refused INIT never makes an entry appear or disappear. */
  lemma KeptPeer(p: Option<Peer>, ev: Event, amA: bool, t: Timing)
    requires ev.EvInit?
    ensures match OnInitPeer(p, amA, ev.epoch, ev.theirs, ev.rnd, ev.now, t.grace)
            case Refused(_, kept) => kept.Some? <==> p.Some?
            case _ => true
  {
  }

  // ------------------------------------------------------------------- invariant

  /** v is the own public value of an installed epoch, or of the key pair put aside for the next one. */
  predicate Owns(e: Entry, v: Bytes) {
    || (exists i :: 0 <= i < |e.installs| && e.installs[i].mine == v)
    || (e.peer.Some? && e.peer.value.rotating && e.peer.value.nextKp.pub == v)
  }

  ghost predicate GoodBook(b: Book, me: string) {
    && (forall k :: k in b.entries ==> Good(Face(b, me, k)) && b.entries[k].amA == Names.Less(me, k))
    && (forall k, l, v :: k in b.entries && l in b.entries && k != l && Owns(b.entries[k], v) ==> !Owns(b.entries[l], v))
  }

  lemma KnowsMore(e: Entry, known: set<Bytes>)
    requires Good(e) && e.known <= known
    ensures Good(e.(known := known))
  {
    hide Derive, NonceOf;
  }

  lemma UnusedGood(amA: bool, known: set<Bytes>)
    ensures Good(Unused(amA).(known := known))
  {
  }

  lemma OwnedIsKnown(e: Entry, v: Bytes)
    requires Good(e) && Owns(e, v)
    ensures v in e.known
  {
    hide Derive, NonceOf, Derived;
    if i :| 0 <= i < |e.installs| && e.installs[i].mine == v {
      assert v in Values(e.installs[i]);
    }
  }

  /** What an event adds: values nobody has seen, and at most the one installation it completes. */
  lemma EventAdds(e: Entry, ev: Event, t: Timing, v: Bytes)
    requires Allowed(e, ev)
    ensures var n := After(e, ev, t);
            && e.known <= n.known && n.amA == e.amA
            && (Owns(n, v) ==> Owns(e, v) || v !in e.known)
            && (n.installs == e.installs
                || (|n.installs| == |e.installs| + 1 && n.installs[..|e.installs|] == e.installs
                    && (ev.EvInit? || ev.EvAck?) && n.installs[|e.installs|].theirs == ev.theirs
                    && ev.theirs in n.known
                    && (Owns(n, ev.theirs) ==> Owns(e, ev.theirs))))
  {
    hide Derive, Dh.SharedSecret, Dh.PublicBytes, NonceOf, OpenUnder;
    var n := After(e, ev, t);
    assert n.installs != e.installs ==> n.installs[..|e.installs|] == e.installs;
    OwnsGrows(e, n, v);
    if ev.EvInit? || ev.EvAck? {
      OwnsGrows(e, n, ev.theirs);
    }
  }

  lemma OwnsGrows(e: Entry, n: Entry, v: Bytes)
    requires n.installs == e.installs || (|n.installs| == |e.installs| + 1 && n.installs[..|e.installs|] == e.installs)
    ensures Owns(n, v) ==>
              || Owns(e, v)
              || (n.peer.Some? && n.peer.value.rotating && n.peer.value.nextKp.pub == v)
              || (|n.installs| > |e.installs| && n.installs[|e.installs|].mine == v)
  {
    if i :| 0 <= i < |n.installs| && n.installs[i].mine == v {
      if i < |e.installs| {
        assert n.installs[..|e.installs|][i] == e.installs[i];
      }
    }
  }

  lemma FaceGood(b: Book, me: string, name: string)
    requires GoodBook(b, me)
    ensures Good(Face(b, me, name)) && Face(b, me, name).amA == Names.Less(me, name)
  {
    hide Good;
    UnusedGood(Names.Less(me, name), b.known);
  }

  lemma FaceOwns(b: Book, me: string, name: string, v: Bytes)
    ensures Owns(Face(b, me, name), v) <==> name in b.entries && Owns(b.entries[name], v)
  {
  }

  lemma CallKeeps(b: Book, me: string, c: Call, t: Timing)
    requires GoodBook(b, me) && Sensible(b, me, c)
    ensures GoodBook(Next(b, me, c, t), me)
  {
    if c.ev.EvStart? && c.name == me {
    } else {
      CallKeepsGood(b, me, c, t);
      CallKeepsOwners(b, me, c, t);
      hide Good, After, Owns, Allowed, Face;
    }
  }

  lemma CallKeepsOwners(b: Book, me: string, c: Call, t: Timing)
    requires GoodBook(b, me) && Sensible(b, me, c) && !(c.ev.EvStart? && c.name == me)
    ensures var n := Next(b, me, c, t);
            forall k, l, v :: k in n.entries && l in n.entries && k != l && Owns(n.entries[k], v) ==> !Owns(n.entries[l], v)
  {
    hide Good, After, Owns, Allowed, Face;
    var n := Next(b, me, c, t);
    forall k, l, v | k in n.entries && l in n.entries && k != l && Owns(n.entries[k], v) ensures !Owns(n.entries[l], v) {
      if k != c.name && l == c.name {
        CallKeepsApart(b, me, c, t, k, v);
      } else if k == c.name && Owns(n.entries[l], v) {
        CallKeepsApart(b, me, c, t, l, v);
      }
    }
  }

  lemma CallKeepsGood(b: Book, me: string, c: Call, t: Timing)
    requires GoodBook(b, me) && Sensible(b, me, c) && !(c.ev.EvStart? && c.name == me)
    ensures var n := Next(b, me, c, t);
            forall k :: k in n.entries ==> Good(Face(n, me, k)) && n.entries[k].amA == Names.Less(me, k)
  {
    hide Good, After, Owns, Allowed;
    var n := Next(b, me, c, t);
    var e := Face(b, me, c.name);
    FaceGood(b, me, c.name);
    EventKeeps(e, c.ev, t);
    EventAdds(e, c.ev, t, []);
    forall k | k in b.entries && k != c.name ensures Good(Face(n, me, k)) {
      KnowsMore(Face(b, me, k), n.known);
    }
    assert n.entries[c.name].(known := n.known) == After(e, c.ev, t);
  }

  lemma CallKeepsApart(b: Book, me: string, c: Call, t: Timing, k: string, v: Bytes)
    requires GoodBook(b, me) && Sensible(b, me, c) && !(c.ev.EvStart? && c.name == me)
    requires k in b.entries && k != c.name && Owns(b.entries[k], v)
    ensures !Owns(Next(b, me, c, t).entries[c.name], v)
  {
    hide Good, After, Owns, Allowed;
    var e := Face(b, me, c.name);
    FaceGood(b, me, c.name);
    FaceGood(b, me, k);
    FaceOwns(b, me, k, v);
    FaceOwns(b, me, c.name, v);
    OwnedIsKnown(Face(b, me, k), v);
    EventAdds(e, c.ev, t, v);
  }

  lemma {:induction false} RunKeeps(b: Book, me: string, calls: seq<Call>, t: Timing)
    requires GoodBook(b, me) && AllSensible(b, me, calls, t)
    ensures GoodBook(Run(b, me, calls, t), me)
    decreases |calls|
  {
    hide GoodBook, Next, Sensible;
    if calls == [] {
    } else {
      CallKeeps(b, me, calls[0], t);
      RunKeeps(Next(b, me, calls[0], t), me, calls[1..], t);
    }
  }

  // -------------------------------------------------------------------- all uses

  /** The i-th use for a peer. */
  predicate IsUse(b: Book, name: string, i: int) {
    name in b.entries && 0 <= i < |b.entries[name].uses| && b.entries[name].uses[i].inst < |b.entries[name].installs|
  }

  function UseOf(b: Book, name: string, i: int): Use
    requires IsUse(b, name, i)
  {
    b.entries[name].uses[i]
  }

  /** The installation whose key the i-th use for a peer was of. */
  function InstallOf(b: Book, name: string, i: int): Install
    requires IsUse(b, name, i)
  {
    b.entries[name].installs[UseOf(b, name, i).inst]
  }

  /** On the same side, of installations that agree on epoch and secret, at the same counter. */
  predicate SameSecret(b: Book, k: string, i: int, l: string, j: int)
    requires IsUse(b, k, i) && IsUse(b, l, j)
  {
    && b.entries[k].amA == b.entries[l].amA && UseOf(b, k, i).tx == UseOf(b, l, j).tx
    && InstallOf(b, k, i).epoch == InstallOf(b, l, j).epoch && InstallOf(b, k, i).z == InstallOf(b, l, j).z
  }

  /** On the same side and counter, of installations for one epoch, each completed with the other's own value. */
  predicate Crossed(b: Book, k: string, i: int, l: string, j: int)
    requires IsUse(b, k, i) && IsUse(b, l, j)
  {
    && b.entries[k].amA == b.entries[l].amA && UseOf(b, k, i).tx == UseOf(b, l, j).tx
    && InstallOf(b, k, i).epoch == InstallOf(b, l, j).epoch
    && InstallOf(b, k, i).theirs == InstallOf(b, l, j).mine && InstallOf(b, l, j).theirs == InstallOf(b, k, i).mine
  }

  /** Equal secrets for one epoch number only arise from the same two public values. */
  predicate Unlinked(a: Install, b: Install) {
    a.epoch == b.epoch && a.z == b.z ==> Values(a) == Values(b)
  }

  lemma UsesIndexed(b: Book, me: string, k: string, i: int)
    requires GoodBook(b, me) && k in b.entries && 0 <= i < |b.entries[k].uses|
    ensures IsUse(b, k, i) && UnderInstalled(b.entries[k], UseOf(b, k, i)) && UseOf(b, k, i).tx < TWO_64
    ensures Derived(InstallOf(b, k, i))
  {
    hide Derive, NonceOf, Derived;
    var e := Face(b, me, k);
    assert UnderInstalled(e, e.uses[i]);
  }

  /**
   * In every run, the uses of any two peers (or two uses for one peer) are of
   * the same key and nonce exactly when they are on the same side, of
   * installations that agree on epoch and secret, at the same counter.
   */
  lemma RepeatsExactly(me: string, calls: seq<Call>, t: Timing, k: string, i: int, l: string, j: int)
    requires AllSensible(Blank(), me, calls, t)
    requires var b := Run(Blank(), me, calls, t);
             && k in b.entries && 0 <= i < |b.entries[k].uses| && l in b.entries && 0 <= j < |b.entries[l].uses|
    ensures var b := Run(Blank(), me, calls, t);
            && IsUse(b, k, i) && IsUse(b, l, j)
            && (Repeats(UseOf(b, k, i), UseOf(b, l, j)) <==> SameSecret(b, k, i, l, j))
  {
    hide Run, AllSensible, GoodBook, Derived, UnderInstalled, Repeats;
    BlankGood(me);
    RunKeeps(Blank(), me, calls, t);
    var b := Run(Blank(), me, calls, t);
    UsesIndexed(b, me, k, i);
    UsesIndexed(b, me, l, j);
    KeysAndNonces(b.entries[k], UseOf(b, k, i), b.entries[l], UseOf(b, l, j));
  }

  lemma BlankGood(me: string)
    ensures GoodBook(Blank(), me)
  {
  }

  /** For different peers, and unless secrets collide otherwise, that is exactly when their values were crossed. */
  lemma RepeatsWhenCrossed(me: string, calls: seq<Call>, t: Timing, k: string, i: int, l: string, j: int)
    requires AllSensible(Blank(), me, calls, t) && k != l
    requires var b := Run(Blank(), me, calls, t);
             && k in b.entries && 0 <= i < |b.entries[k].uses| && l in b.entries && 0 <= j < |b.entries[l].uses|
    requires var b := Run(Blank(), me, calls, t);
             IsUse(b, k, i) && IsUse(b, l, j) ==> Unlinked(InstallOf(b, k, i), InstallOf(b, l, j))
    ensures var b := Run(Blank(), me, calls, t);
            && IsUse(b, k, i) && IsUse(b, l, j)
            && (Repeats(UseOf(b, k, i), UseOf(b, l, j)) <==> Crossed(b, k, i, l, j))
  {
    RepeatsExactly(me, calls, t, k, i, l, j);
    BlankGood(me);
    RunKeeps(Blank(), me, calls, t);
    var b := Run(Blank(), me, calls, t);
    UsesIndexed(b, me, k, i);
    UsesIndexed(b, me, l, j);
    OwnApart(b, me, k, i, l, j);
    hide Run, AllSensible, GoodBook, UnderInstalled, Repeats, IsUse, Derived;
    CrossedAgree(InstallOf(b, k, i), InstallOf(b, l, j));
  }

  lemma OwnApart(b: Book, me: string, k: string, i: int, l: string, j: int)
    requires GoodBook(b, me) && k != l && IsUse(b, k, i) && IsUse(b, l, j)
    ensures InstallOf(b, k, i).mine != InstallOf(b, l, j).mine
  {
    hide Good;
    assert Owns(b.entries[k], InstallOf(b, k, i).mine);
    assert Owns(b.entries[l], InstallOf(b, l, j).mine);
  }

  /** Installations with different own values agree on the secret when crossed; unless secrets collide, only then. */
  lemma CrossedAgree(a: Install, b: Install)
    requires Derived(a) && Derived(b) && a.mine != b.mine
    ensures a.theirs == b.mine && b.theirs == a.mine ==> a.z == b.z
    ensures Unlinked(a, b) && a.epoch == b.epoch && a.z == b.z ==> a.theirs == b.mine && b.theirs == a.mine
  {
    hide Dh.PublicBytes, Dh.ValidPublic;
    Dh.Agreement(a.x, b.x);
    if Values(a) == Values(b) {
      assert a.mine in Values(b) && b.mine in Values(a);
    }
  }

  // ------------------------------------------------------------------- the guard

  /** No installed epoch and no pending key pair here has this public value. */
  predicate NotOurs(b: Book, v: Bytes) {
    forall k :: k in b.entries ==> !Owns(b.entries[k], v)
  }

  /** What can be checked when an INIT or ACK arrives: its public value was not generated here. */
  predicate Outside(b: Book, c: Call) {
    c.ev.EvInit? || c.ev.EvAck? ==> NotOurs(b, c.ev.theirs)
  }

  predicate AllOutside(b: Book, me: string, calls: seq<Call>, t: Timing)
    decreases |calls|
  {
    calls == [] || (Outside(b, calls[0]) && AllOutside(Next(b, me, calls[0], t), me, calls[1..], t))
  }

  /** No epoch was completed with a value generated here. */
  ghost predicate AllForeign(b: Book) {
    forall k, i :: k in b.entries && 0 <= i < |b.entries[k].installs| ==> NotOurs(b, b.entries[k].installs[i].theirs)
  }

  lemma CallKeepsForeign(b: Book, me: string, c: Call, t: Timing)
    requires GoodBook(b, me) && AllForeign(b) && Sensible(b, me, c) && Outside(b, c)
    ensures AllForeign(Next(b, me, c, t))
  {
    if c.ev.EvStart? && c.name == me {
    } else {
      hide Good, After, Owns, Allowed;
      var n := Next(b, me, c, t);
      forall k, i, l | k in n.entries && 0 <= i < |n.entries[k].installs| && l in n.entries
        ensures !Owns(n.entries[l], n.entries[k].installs[i].theirs)
      {
        StaysForeign(b, me, c, t, k, i, l);
      }
    }
  }

  lemma StaysForeign(b: Book, me: string, c: Call, t: Timing, k: string, i: int, l: string)
    requires GoodBook(b, me) && AllForeign(b) && Sensible(b, me, c) && Outside(b, c) && !(c.ev.EvStart? && c.name == me)
    requires var n := Next(b, me, c, t); k in n.entries && 0 <= i < |n.entries[k].installs| && l in n.entries
    ensures var n := Next(b, me, c, t); !Owns(n.entries[l], n.entries[k].installs[i].theirs)
  {
    hide Good, After, Owns, Allowed;
    var n := Next(b, me, c, t);
    var e := Face(b, me, c.name);
    var v := n.entries[k].installs[i].theirs;
    EventAdds(e, c.ev, t, v);
    FaceOwns(b, me, c.name, v);
    if k == c.name && i >= |e.installs| {
      assert v == c.ev.theirs;
    } else {
      var f := Face(b, me, k);
      assert k in b.entries && i < |f.installs| && f.installs[i].theirs == v by {
        if k == c.name {
          assert n.entries[k].installs[..|e.installs|][i] == e.installs[i];
        }
      }
      FaceGood(b, me, k);
      TheirsKnown(f, i);
      assert NotOurs(b, v);
    }
  }

  lemma TheirsKnown(e: Entry, i: nat)
    requires Good(e) && i < |e.installs|
    ensures e.installs[i].theirs in e.known
  {
    hide Derive, NonceOf, Derived;
    assert e.installs[i].theirs in Values(e.installs[i]);
  }

  lemma {:induction false} RunKeepsForeign(b: Book, me: string, calls: seq<Call>, t: Timing)
    requires GoodBook(b, me) && AllForeign(b) && AllSensible(b, me, calls, t) && AllOutside(b, me, calls, t)
    ensures AllForeign(Run(b, me, calls, t))
    decreases |calls|
  {
    hide GoodBook, AllForeign, Next, Sensible, Outside;
    if calls == [] {
    } else {
      CallKeeps(b, me, calls[0], t);
      CallKeepsForeign(b, me, calls[0], t);
      RunKeepsForeign(Next(b, me, calls[0], t), me, calls[1..], t);
    }
  }

  /** Equal secrets for one epoch number only arise from the same two public values, throughout the Manager. */
  ghost predicate AllUnlinked(b: Book) {
    forall k, i, l, j :: k in b.entries && 0 <= i < |b.entries[k].installs|
                         && l in b.entries && 0 <= j < |b.entries[l].installs|
                         ==> Unlinked(b.entries[k].installs[i], b.entries[l].installs[j])
  }

  /**
   * If no INIT or ACK carries a value generated here, and secrets do not collide,
   * no two seals of the whole Manager share both key and nonce.
   */
  lemma NothingRepeats(me: string, calls: seq<Call>, t: Timing, k: string, i: int, l: string, j: int)
    requires AllSensible(Blank(), me, calls, t) && AllOutside(Blank(), me, calls, t)
    requires AllUnlinked(Run(Blank(), me, calls, t))
    requires var b := Run(Blank(), me, calls, t);
             && k in b.entries && 0 <= i < |b.entries[k].uses| && l in b.entries && 0 <= j < |b.entries[l].uses|
    requires k != l || i != j
    ensures var b := Run(Blank(), me, calls, t);
            IsUse(b, k, i) && IsUse(b, l, j) && !Repeats(UseOf(b, k, i), UseOf(b, l, j))
  {
    BlankGood(me);
    RunKeeps(Blank(), me, calls, t);
    RunKeepsForeign(Blank(), me, calls, t);
    var b := Run(Blank(), me, calls, t);
    RepeatsExactly(me, calls, t, k, i, l, j);
    UsesIndexed(b, me, k, i);
    UsesIndexed(b, me, l, j);
    hide Run, AllSensible, AllOutside, Good, UnderInstalled, Repeats, Derived;
    if k == l {
      SameEntryDiffers(Face(b, me, k), i, j);
    } else {
      OwnApart(b, me, k, i, l, j);
      CrossedAgree(InstallOf(b, k, i), InstallOf(b, l, j));
      assert Owns(b.entries[l], InstallOf(b, l, j).mine);
      assert NotOurs(b, InstallOf(b, k, i).theirs);
    }
  }

  lemma SameEntryDiffers(e: Entry, i: int, j: int)
    requires Good(e) && 0 <= i < |e.uses| && 0 <= j < |e.uses| && i != j
    requires e.uses[i].inst < |e.installs| && e.uses[j].inst < |e.installs|
    requires Unlinked(e.installs[e.uses[i].inst], e.installs[e.uses[j].inst])
    ensures var u, v := e.uses[i], e.uses[j];
            !(u.tx == v.tx && e.installs[u.inst].epoch == e.installs[v.inst].epoch
              && e.installs[u.inst].z == e.installs[v.inst].z)
  {
    hide Derive, NonceOf, Derived;
  }

  // ------------------------------------------------- why the guard is needed

  /** Two peers are each handed the value generated for the other. */
  function Swapped(k: string, l: string, x: nat, y: nat, first: string, second: string): seq<Call> {
    [Call(k, EvStart(x, 0)), Call(l, EvInit(0, Dh.PublicBytes(x), Some(y), 0)), Call(k, EvAck(0, Dh.PublicBytes(y), 0)),
     Call(k, EvSeal(first)), Call(l, EvSeal(second))]
  }

  function Asked(x: nat): Entry {
    Entry(Some(StartPeer(true, Dh.Ephemeral(x, Dh.PublicBytes(x)), 0)), true, [], [], {Dh.PublicBytes(x)})
  }

  /** Both peers are in session under one secret. */
  lemma SwapInstalls(me: string, k: string, l: string, x: nat, y: nat, z: Bytes, first: string, second: string, t: Timing)
    requires Names.Less(me, k) && Names.Less(me, l) && k != l && k != me
    requires Dh.SharedSecret(y, Dh.PublicBytes(x)) == Dh.SharedSecret(x, Dh.PublicBytes(y)) == Some(z)
    requires Dh.PublicBytes(x) != Dh.PublicBytes(y)
    ensures var calls := Swapped(k, l, x, y, first, second);
            var b1 := Next(Blank(), me, calls[0], t);
            var b2 := Next(b1, me, calls[1], t);
            var b3 := Next(b2, me, calls[2], t);
            && Sensible(Blank(), me, calls[0]) && Sensible(b1, me, calls[1]) && Sensible(b2, me, calls[2])
            && !Outside(b1, calls[1])
            && InSession(b3, k, z) && InSession(b3, l, z)
  {
    hide Derive, Dh.SharedSecret, Dh.PublicBytes, NonceOf;
    var b1 := Next(Blank(), me, Swapped(k, l, x, y, first, second)[0], t);
    assert Owns(b1.entries[k], Dh.PublicBytes(x));
  }

  /** A seal for one peer in session uses its key at counter 0 and leaves every other entry alone. */
  lemma SealInSession(b: Book, me: string, name: string, z: Bytes, text: string, t: Timing, other: string)
    requires InSession(b, name, z) && other != name
    ensures Sensible(b, me, Call(name, EvSeal(text)))
    ensures var n := Next(b, me, Call(name, EvSeal(text)), t);
            && SealedOnce(n, name, z)
            && (InSession(b, other, z) ==> InSession(n, other, z))
            && (SealedOnce(b, other, z) ==> SealedOnce(n, other, z))
  {
    DeriveCounters(0, z);
    hide Derive, NonceOf;
  }

  /** The entry is up on the a-side in epoch 0 with this secret, nothing sealed yet. */
  predicate InSession(b: Book, name: string, z: Bytes) {
    && name in b.entries && var e := b.entries[name];
    && e.installs != [] && e.uses == [] && e.peer.Some?
    && e.peer.value.state == Up && e.peer.value.amA && e.peer.value.cur == Derive(0, z)
  }

  predicate SealedOnce(b: Book, name: string, z: Bytes) {
    && name in b.entries && var e := b.entries[name];
    && |e.uses| == 1 && e.uses[0].inst < |e.installs|
    && e.uses[0].key == Derive(0, z).kA2b && e.uses[0].nonce == NonceOf(Derive(0, z).salt, 0)
  }

  /** The swap is a sensible run after which the one use for k and the one for l repeat a key and nonce. */
  predicate RepeatsBySwap(me: string, k: string, l: string, x: nat, y: nat, first: string, second: string, t: Timing) {
    var calls := Swapped(k, l, x, y, first, second);
    var b := Run(Blank(), me, calls, t);
    && AllSensible(Blank(), me, calls, t)
    && IsUse(b, k, 0) && IsUse(b, l, 0) && Repeats(UseOf(b, k, 0), UseOf(b, l, 0))
  }

  /** Any two honest values of one Manager, exchanged between two peers on the same side, make it repeat a key and nonce. */
  lemma SwappedRepeats(me: string, k: string, l: string, x: nat, y: nat, first: string, second: string, t: Timing)
    requires Names.Less(me, k) && Names.Less(me, l) && k != l
    requires Dh.ValidPublic(Dh.PublicBytes(x)) && Dh.ValidPublic(Dh.PublicBytes(y)) && Dh.PublicBytes(x) != Dh.PublicBytes(y)
    ensures RepeatsBySwap(me, k, l, x, y, first, second, t)
    ensures !AllOutside(Blank(), me, Swapped(k, l, x, y, first, second), t)
  {
    Dh.Agreement(x, y);
    var z := Dh.SharedSecret(x, Dh.PublicBytes(y)).value;
    Names.Trichotomy(me, k);
    SwapInstalls(me, k, l, x, y, z, first, second, t);
    var calls := Swapped(k, l, x, y, first, second);
    assert calls[3] == Call(k, EvSeal(first)) && calls[4] == Call(l, EvSeal(second));
    hide *;
    FiveCalls(Blank(), me, calls, t);
    var b3 := Next(Next(Next(Blank(), me, calls[0], t), me, calls[1], t), me, calls[2], t);
    SealInSession(b3, me, k, z, first, t, l);
    var b4 := Next(b3, me, calls[3], t);
    SealInSession(b4, me, l, z, second, t, k);
    SealedRepeats(Run(Blank(), me, calls, t), k, l, z);
    BySwap(me, k, l, x, y, first, second, t);
  }

  /** A run of five calls, call by call. */
  lemma FiveCalls(b: Book, me: string, calls: seq<Call>, t: Timing)
    requires |calls| == 5
    ensures var b1 := Next(b, me, calls[0], t);
            var b2 := Next(b1, me, calls[1], t);
            var b3 := Next(b2, me, calls[2], t);
            var b4 := Next(b3, me, calls[3], t);
            && Run(b, me, calls, t) == Next(b4, me, calls[4], t)
            && (AllSensible(b, me, calls, t) <==>
                  && Sensible(b, me, calls[0]) && Sensible(b1, me, calls[1]) && Sensible(b2, me, calls[2])
                  && Sensible(b3, me, calls[3]) && Sensible(b4, me, calls[4]))
            && (!Outside(b1, calls[1]) ==> !AllOutside(b, me, calls, t))
  {
    hide *;
    var b1 := Next(b, me, calls[0], t);
    var b2 := Next(b1, me, calls[1], t);
    var b3 := Next(b2, me, calls[2], t);
    var b4 := Next(b3, me, calls[3], t);
    FirstCall(b, me, calls, t);
    FirstCall(b1, me, calls[1..], t);
    FirstCall(b2, me, calls[2..], t);
    FirstCall(b3, me, calls[3..], t);
    FirstCall(b4, me, calls[4..], t);
    assert calls[1..][1..] == calls[2..] && calls[2..][1..] == calls[3..] && calls[3..][1..] == calls[4..];
  }

  lemma FirstCall(b: Book, me: string, calls: seq<Call>, t: Timing)
    requires calls != []
    ensures var n := Next(b, me, calls[0], t);
            && Run(b, me, calls, t) == Run(n, me, calls[1..], t)
            && (AllSensible(b, me, calls, t) <==> Sensible(b, me, calls[0]) && AllSensible(n, me, calls[1..], t))
            && (AllOutside(b, me, calls, t) <==> Outside(b, calls[0]) && AllOutside(n, me, calls[1..], t))
            && (|calls| == 1 ==>
                  Run(n, me, calls[1..], t) == n && AllSensible(n, me, calls[1..], t) && AllOutside(n, me, calls[1..], t))
  {
    hide Next, Sensible, Outside;
  }

  lemma SealedRepeats(b: Book, k: string, l: string, z: Bytes)
    requires SealedOnce(b, k, z) && SealedOnce(b, l, z)
    ensures IsUse(b, k, 0) && IsUse(b, l, 0) && Repeats(UseOf(b, k, 0), UseOf(b, l, 0))
  {
    hide Derive, NonceOf;
  }

  lemma BySwap(me: string, k: string, l: string, x: nat, y: nat, first: string, second: string, t: Timing)
    requires var calls := Swapped(k, l, x, y, first, second);
             var b := Run(Blank(), me, calls, t);
             && AllSensible(Blank(), me, calls, t)
             && IsUse(b, k, 0) && IsUse(b, l, 0) && Repeats(UseOf(b, k, 0), UseOf(b, l, 0))
    ensures RepeatsBySwap(me, k, l, x, y, first, second, t)
  {
    hide Swapped, Run, AllSensible, IsUse, Repeats;
  }

  /** The exponents for that can be ones that key generation draws. */
  lemma RepeatIsPossible(me: string, k: string, l: string, first: string, second: string, t: Timing)
    requires Names.Less(me, k) && Names.Less(me, l) && k != l
    ensures exists x, y :: Dh.FullWidth(x) && Dh.FullWidth(y) && RepeatsBySwap(me, k, l, x, y, first, second, t)
  {
    var x, y := Dh.HonestExponents();
    hide *;
    SwappedRepeats(me, k, l, x, y, first, second, t);
  }
}
