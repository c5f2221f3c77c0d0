/**
 * Which keys an opened message was sealed under. Under an arbitrary network it
 * is always the key of an installed epoch, exactly as long as no entry that is
 * still pending is retired by an INIT above epoch 0.
 */
module Authentic {
  import opened Wrappers
  import opened ByteStrings
  import opened Crypto
  import opened E2e
  import opened NonceUse
  import Dh

  function Uncounted(e: Epoch): Epoch {
    e.(tx := 0, rx := 0)
  }

  ghost predicate IsInstalled(s: Entry, e: Epoch) {
    exists i :: 0 <= i < |s.installs| && Uncounted(e) == Derive(s.installs[i].epoch, s.installs[i].z)
  }

  /** The key is the receiving key of an installed epoch. */
  ghost predicate IsInstalledKey(s: Entry, key: Key) {
    exists i :: 0 <= i < |s.installs| && key == SealKey(Derive(s.installs[i].epoch, s.installs[i].z), !s.amA)
  }

  /** Whatever could be opened now was sealed under an installed epoch's key. */
  ghost predicate OpensInstalled(s: Entry) {
    forall m, now :: OpenPeer(s.peer, m, now).Ok? ==> m.Chat? && m.ct.Sealed? && IsInstalledKey(s, m.ct.key)
  }

  /** An INIT above epoch 0 is about to be answered by an entry that is still waiting for its first epoch. */
  predicate RetiresPending(s: Entry, ev: Event, t: Timing) {
    && ev.EvInit? && ev.epoch != 0
    && s.peer.Some? && s.peer.value.state == Pending
    && OnInitPeer(s.peer, s.amA, ev.epoch, ev.theirs, ev.rnd, ev.now, t.grace).Answered?
  }

  // ------------------------------------------------------------------- invariant

  /** A pending entry has nothing behind it; a remembered epoch was installed, or its number is the current one's. */
  ghost predicate Remembered(s: Entry) {
    s.peer.Some? ==>
      var p := s.peer.value;
      && (p.state == Pending ==> !p.havePrev && p.cur == BlankEpoch())
      && (p.state == Up && p.havePrev ==> p.prev.n == p.cur.n || IsInstalled(s, p.prev))
  }

  lemma MoreInstalled(s: Entry, n: Entry, e: Epoch)
    requires IsInstalled(s, e)
    requires n.installs == s.installs || (|n.installs| == |s.installs| + 1 && n.installs[..|s.installs|] == s.installs)
    ensures IsInstalled(n, e)
  {
    hide Derive;
    var i :| 0 <= i < |s.installs| && Uncounted(e) == Derive(s.installs[i].epoch, s.installs[i].z);
    assert n.installs == s.installs || n.installs[..|s.installs|][i] == s.installs[i];
    assert n.installs[i] == s.installs[i];
  }

  lemma CurrentInstalled(s: Entry)
    requires Good(s) && s.peer.Some? && s.peer.value.state == Up
    ensures IsInstalled(s, s.peer.value.cur)
  {
    hide Derive, FreshInstalls, Counted;
    assert Uncounted(s.peer.value.cur) == Derive(s.installs[Latest(s)].epoch, s.installs[Latest(s)].z);
  }

  lemma InitRemembered(s: Entry, epoch: nat, theirs: Bytes, rnd: Option<nat>, now: int, t: Timing)
    requires Good(s) && Remembered(s)
    requires !RetiresPending(s, EvInit(epoch, theirs, rnd, now), t)
    ensures Remembered(After(s, EvInit(epoch, theirs, rnd, now), t))
  {
    if OnInitPeer(s.peer, s.amA, epoch, theirs, rnd, now, t.grace).Answered? {
      InitAnsweredRemembered(s, epoch, theirs, rnd, now, t);
    } else {
      UnansweredKeeps(s.peer, s.amA, epoch, theirs, rnd, now, t.grace);
      hide Derive, Dh.SharedSecret, Dh.PublicBytes, Good, IsInstalled, OnInitPeer;
      var n := After(s, EvInit(epoch, theirs, rnd, now), t);
      if s.peer.Some? && IsInstalled(s, s.peer.value.prev) {
        MoreInstalled(s, n, s.peer.value.prev);
      }
    }
  }

  /** An INIT that is not answered at most makes the entry give up its own. */
  lemma UnansweredKeeps(p: Option<Peer>, amA: bool, epoch: nat, theirs: Bytes, rnd: Option<nat>, now: int, grace: nat)
    ensures match OnInitPeer(p, amA, epoch, theirs, rnd, now, grace)
            case Refused(_, kept) => kept == p || (p.Some? && kept == Some(p.value.(rotating := false)))
            case _ => true
  {
    hide Derive, Dh.SharedSecret, Dh.PublicBytes;
  }

  lemma InitAnsweredRemembered(s: Entry, epoch: nat, theirs: Bytes, rnd: Option<nat>, now: int, t: Timing)
    requires Good(s) && Remembered(s)
    requires !RetiresPending(s, EvInit(epoch, theirs, rnd, now), t)
    requires OnInitPeer(s.peer, s.amA, epoch, theirs, rnd, now, t.grace).Answered?
    ensures Remembered(After(s, EvInit(epoch, theirs, rnd, now), t))
  {
    var n := After(s, EvInit(epoch, theirs, rnd, now), t);
    DerivedNumber(epoch);
    AnsweredNumbers(s.peer, s.amA, epoch, theirs, rnd, now, t.grace);
    if s.peer.Some? && s.peer.value.state == Up {
      CurrentInstalled(s);
      hide Derive, Good, IsInstalled, OnInitPeer, Remembered, Dh.SharedSecret;
      assert n.installs[..|s.installs|] == s.installs;
      MoreInstalled(s, n, s.peer.value.cur);
    }
    hide Derive, Good, IsInstalled, OnInitPeer, Dh.SharedSecret;
  }

  /** The current epoch takes the number asked for and what was current is remembered. */
  lemma AnsweredNumbers(p: Option<Peer>, amA: bool, epoch: nat, theirs: Bytes, rnd: Option<nat>, now: int, grace: nat)
    ensures var o := OnInitPeer(p, amA, epoch, theirs, rnd, now, grace);
            o.Answered? ==>
              && o.after.state == Up && o.after.cur.n == epoch
              && (p.None? ==> !o.after.havePrev)
              && (p.Some? ==> o.after.havePrev && o.after.prev == p.value.cur)
  {
    DerivedNumber(epoch);
    hide Derive, Dh.SharedSecret, Dh.PublicBytes;
  }

  lemma DerivedNumber(n: nat)
    ensures forall z :: Derive(n, z).n == n
  {
  }

  lemma AckRemembered(s: Entry, epoch: nat, theirs: Bytes, now: int, t: Timing)
    requires Good(s) && Remembered(s)
    ensures Remembered(After(s, EvAck(epoch, theirs, now), t))
  {
    var n := After(s, EvAck(epoch, theirs, now), t);
    if s.peer.Some? && s.peer.value.state == Up {
      CurrentInstalled(s);
    }
    hide Derive, Dh.SharedSecret, Dh.PublicBytes, Good, IsInstalled;
    if n.installs != s.installs && s.peer.Some? && s.peer.value.state == Up {
      assert n.installs[..|s.installs|] == s.installs;
      MoreInstalled(s, n, s.peer.value.cur);
    }
    if n.installs == s.installs && s.peer.Some? && IsInstalled(s, s.peer.value.prev) {
      MoreInstalled(s, n, s.peer.value.prev);
    }
  }

  lemma OtherRemembered(s: Entry, ev: Event, t: Timing)
    requires Remembered(s) && !ev.EvInit? && !ev.EvAck?
    ensures Remembered(After(s, ev, t))
  {
    hide Derive, Dh.PublicBytes, NonceOf, OpenUnder;
  }

  lemma EventRemembered(s: Entry, ev: Event, t: Timing)
    requires Good(s) && Remembered(s) && !RetiresPending(s, ev, t)
    ensures Remembered(After(s, ev, t))
  {
    hide *;
    match ev
    case EvInit(epoch, theirs, rnd, now) => InitRemembered(s, epoch, theirs, rnd, now, t);
    case EvAck(epoch, theirs, now) => AckRemembered(s, epoch, theirs, now, t);
    case _ => OtherRemembered(s, ev, t);
  }

  // ------------------------------------------------------------- both directions

  lemma RememberedOpens(s: Entry)
    requires Good(s) && Remembered(s)
    ensures OpensInstalled(s)
  {
    forall m, now | OpenPeer(s.peer, m, now).Ok? ensures m.Chat? && m.ct.Sealed? && IsInstalledKey(s, m.ct.key) {
      OpenedKey(s, m, now);
    }
  }

  lemma OpenedKey(s: Entry, m: ChatPayload, now: int)
    requires Good(s) && Remembered(s) && OpenPeer(s.peer, m, now).Ok?
    ensures m.Chat? && m.ct.Sealed? && IsInstalledKey(s, m.ct.key)
  {
    CurrentInstalled(s);
    var p := s.peer.value;
    var e := if m.epoch == p.cur.n then p.cur else p.prev;
    assert IsInstalled(s, e) && m.ct.Sealed? && m.ct.key == SealKey(e, !p.amA) && p.amA == s.amA by {
      hide Derive, NonceOf, FreshInstalls, Counted, IsInstalled;
    }
    InstalledHasKey(s, e);
  }

  lemma InstalledHasKey(s: Entry, e: Epoch)
    requires IsInstalled(s, e)
    ensures IsInstalledKey(s, SealKey(e, !s.amA))
  {
    hide Derive;
    var i :| 0 <= i < |s.installs| && Uncounted(e) == Derive(s.installs[i].epoch, s.installs[i].z);
    assert SealKey(e, !s.amA) == SealKey(Uncounted(e), !s.amA);
  }

  /** A message under the blank epoch's key, which nobody ever derived. */
  function Blank(): ChatPayload {
    Chat(0, Sealed(Zeros(KEY_LEN), NonceOf(Zeros(SALT_LEN), 0), 0, ""))
  }

  lemma BlankNotInstalled(s: Entry)
    ensures !IsInstalledKey(s, Blank().ct.key)
  {
    assert Blank().ct.key[0] == Lit(0);
    forall i | 0 <= i < |s.installs| ensures SealKey(Derive(s.installs[i].epoch, s.installs[i].z), !s.amA)[0].OfDigest? {
    }
  }

  lemma RetiredOpensBlank(s: Entry, ev: Event, t: Timing)
    requires Remembered(s) && RetiresPending(s, ev, t)
    ensures var n := After(s, ev, t);
            n.peer.Some? && OpenPeer(n.peer, Blank(), n.peer.value.graceUntil - 1).Ok?
  {
    DerivedNumber(ev.epoch);
    hide Derive, Dh.SharedSecret, Dh.PublicBytes, NonceOf;
  }

  lemma RetiredOpens(s: Entry, ev: Event, t: Timing)
    requires Remembered(s) && RetiresPending(s, ev, t)
    ensures !OpensInstalled(After(s, ev, t))
  {
    RetiredOpensBlank(s, ev, t);
    BlankNotInstalled(After(s, ev, t));
    hide After, OpenPeer, Blank, IsInstalledKey, Remembered, RetiresPending;
  }

  // -------------------------------------------------------------------- all runs

  /** In every state along the run. */
  ghost predicate AlwaysOpensInstalled(s: Entry, evs: seq<Event>, t: Timing)
    decreases |evs|
  {
    OpensInstalled(s) && (evs == [] || AlwaysOpensInstalled(After(s, evs[0], t), evs[1..], t))
  }

  predicate NeverRetiresPending(s: Entry, evs: seq<Event>, t: Timing)
    decreases |evs|
  {
    evs == [] || (!RetiresPending(s, evs[0], t) && NeverRetiresPending(After(s, evs[0], t), evs[1..], t))
  }

  lemma {:induction false} ExactlyFrom(s: Entry, evs: seq<Event>, t: Timing)
    requires Good(s) && Remembered(s) && AllAllowed(s, evs, t)
    ensures AlwaysOpensInstalled(s, evs, t) <==> NeverRetiresPending(s, evs, t)
    decreases |evs|
  {
    RememberedOpens(s);
    hide Good, Remembered, OpensInstalled, RetiresPending, After, Allowed;
    if evs == [] {
    } else if RetiresPending(s, evs[0], t) {
      RetiredOpens(s, evs[0], t);
    } else {
      EventKeeps(s, evs[0], t);
      EventRemembered(s, evs[0], t);
      ExactlyFrom(After(s, evs[0], t), evs[1..], t);
    }
  }

  /**
   * Whatever the network does, everything that can ever be opened was sealed
   * under the key of an installed epoch if and only if no pending entry was
   * retired by an INIT above epoch 0.
   */
  lemma OpenedIsInstalled(amA: bool, evs: seq<Event>, t: Timing)
    requires AllAllowed(Unused(amA), evs, t)
    ensures AlwaysOpensInstalled(Unused(amA), evs, t) <==> NeverRetiresPending(Unused(amA), evs, t)
  {
    UnusedRemembered(amA);
    ExactlyFrom(Unused(amA), evs, t);
  }

  lemma UnusedRemembered(amA: bool)
    ensures Good(Unused(amA)) && Remembered(Unused(amA))
  {
  }

  /** A request answered by an INIT for epoch 1 is such a run, for any values in range. */
  lemma PendingIsRetired(amA: bool, x: nat, y: nat, theirs: Bytes, t: Timing)
    requires Dh.ValidPublic(theirs) && Dh.PublicBytes(x) != Dh.PublicBytes(y) && Dh.PublicBytes(y) != theirs
    ensures var evs := [EvStart(x, 0), EvInit(1, theirs, Some(y), 0)];
            AllAllowed(Unused(amA), evs, t) && !AlwaysOpensInstalled(Unused(amA), evs, t)
  {
    hide Derive, Dh.PublicBytes, Dh.ValidPublic, OpensInstalled, AlwaysOpensInstalled;
    var evs := [EvStart(x, 0), EvInit(1, theirs, Some(y), 0)];
    assert evs[1..][0] == evs[1] && evs[1..][1..] == [];
    var s := After(Unused(amA), evs[0], t);
    assert RetiresPending(s, evs[1], t);
    assert AllAllowed(s, evs[1..], t) && !NeverRetiresPending(s, evs[1..], t);
    OpenedIsInstalled(amA, evs, t);
  }
}
