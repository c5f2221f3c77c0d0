/**
 * One peer's entry in a Manager, driven by an arbitrary network: messages may be
 * lost, repeated, reordered or made up, `start` may be repeated, and every
 * handler may run at any time. Within the entry a key is used twice with the
 * same nonce exactly when two installed epochs agree on number and secret.
 */
module NonceUse {
  import opened Wrappers
  import opened ByteStrings
  import opened Crypto
  import opened E2e
  import HashInputs
  import Dh

  /** An epoch as it was installed: the own exponent, the public values, and the shared secret they give. */
  datatype Install = Install(x: nat, mine: Bytes, theirs: Bytes, epoch: nat, z: Bytes)

  /** A call to the AEAD: the key and nonce, and (history) which installation and which counter. */
  datatype Use = Use(key: Key, nonce: Nonce, inst: nat, tx: nat)

  /** `known` holds every public value generated here or received so far. */
  datatype Entry = Entry(peer: Option<Peer>, amA: bool, installs: seq<Install>, uses: seq<Use>, known: set<Bytes>)

  datatype Event =
    | EvStart(x: nat, now: int)
    | EvInit(epoch: nat, theirs: Bytes, rnd: Option<nat>, now: int)
    | EvAck(epoch: nat, theirs: Bytes, now: int)
    | EvSeal(text: string)
    | EvOpen(m: ChatPayload, now: int)
    | EvTick(rnd: Option<nat>, now: int)

  function Public(x: Option<nat>): set<Bytes> {
    if x.Some? then {Dh.PublicBytes(x.value)} else {}
  }

  function After(s: Entry, ev: Event, t: Timing): Entry {
    match ev
    case EvStart(x, now) =>
      s.(peer := Some(StartPeer(s.amA, Dh.Ephemeral(x, Dh.PublicBytes(x)), now)), known := s.known + Public(Some(x)))
    case EvInit(epoch, theirs, x, now) =>
      var known := s.known + {theirs} + Public(x);
      (match OnInitPeer(s.peer, s.amA, epoch, theirs, x, now, t.grace)
       case Refused(_, kept) => s.(peer := kept, known := known)
       case Ignored => s.(known := known)
       case Answered(p, mine) =>
         var z := Dh.SharedSecret(x.value, theirs).value;
         s.(peer := Some(p), known := known, installs := s.installs + [Install(x.value, mine, theirs, epoch, z)]))
    case EvAck(epoch, theirs, now) =>
      var known := s.known + {theirs};
      (match OnAckPeer(s.peer, Some((epoch, theirs)), now, t.grace)
       case Err(_) => s.(known := known)
       case Ok(p) =>
         var own := s.peer.value.nextKp;
         var z := Dh.SharedSecret(own.priv, theirs).value;
         s.(peer := Some(p), known := known, installs := s.installs + [Install(own.priv, own.pub, theirs, epoch, z)]))
    case EvSeal(text) =>
      (match SealPeer(s.peer, text)
       case Err(_) => s
       case Ok((p, m)) =>
         var use := Use(m.ct.key, m.ct.nonce, Latest(s), s.peer.value.cur.tx);
         s.(peer := Some(p), uses := s.uses + [use]))
    case EvOpen(m, now) =>
      (match OpenPeer(s.peer, m, now)
       case Err(_) => s
       case Ok((p, _)) => s.(peer := Some(p)))
    case EvTick(x, now) =>
      if s.peer.None? then s
      else s.(peer := Some(TickPeer(s.peer.value, x, now, t).0), known := s.known + Public(x))
  }

  function Latest(s: Entry): nat {
    if s.installs == [] then 0 else |s.installs| - 1
  }

  /**
   * Generated public values are new; the values an event carries are 32-bit
   * epochs and full-width public values, as decode_kex ensures; counters do not
   * reach 2^64.
   */
  predicate Allowed(s: Entry, ev: Event) {
    match ev
    case EvStart(x, _) => Dh.PublicBytes(x) !in s.known
    case EvInit(epoch, theirs, x, _) =>
      epoch < TWO_32 && (x.Some? ==> Dh.PublicBytes(x.value) !in s.known + {theirs})
    case EvAck(epoch, theirs, _) => epoch < TWO_32
    case EvSeal(_) => s.peer.Some? ==> s.peer.value.cur.tx + 1 < TWO_64
    case EvOpen(_, _) => true
    case EvTick(x, _) => x.Some? ==> Dh.PublicBytes(x.value) !in s.known
  }

  function Values(i: Install): set<Bytes> {
    {i.mine, i.theirs}
  }

  /** The secret is the one the own exponent gives with the other's value. */
  predicate Derived(i: Install) {
    && i.epoch < TWO_32 && |i.z| == Dh.MODULUS_BYTES
    && i.mine == Dh.PublicBytes(i.x) && Dh.SharedSecret(i.x, i.theirs) == Some(i.z)
  }

  /** Installations are of pairwise different own key pairs and different pairs of public values. */
  ghost predicate FreshInstalls(s: Entry) {
    && (forall i :: 0 <= i < |s.installs| ==>
          Values(s.installs[i]) <= s.known && Derived(s.installs[i]))
    && (forall i, j :: 0 <= i < j < |s.installs| ==>
          && s.installs[i].mine != s.installs[j].mine
          && Values(s.installs[i]) != Values(s.installs[j]))
  }

  /** A pending key pair is in no installation yet; the current epoch is the latest installation. */
  ghost predicate Current(s: Entry) {
    s.peer.Some? ==>
      var p := s.peer.value;
      && p.amA == s.amA
      && (p.rotating ==>
            && p.nextKp.pub in s.known && p.nextKp.pub == Dh.PublicBytes(p.nextKp.priv)
            && (forall i :: 0 <= i < |s.installs| ==> p.nextKp.pub !in Values(s.installs[i])))
      && (p.state == Up ==>
            && s.installs != []
            && p.cur.(tx := 0, rx := 0) == Derive(s.installs[Latest(s)].epoch, s.installs[Latest(s)].z))
  }

  /** A use of the sealing key of the installation it records, with the nonce of its counter. */
  predicate UnderInstalled(s: Entry, u: Use) {
    && u.inst < |s.installs|
    && var e := Derive(s.installs[u.inst].epoch, s.installs[u.inst].z);
       u.key == SealKey(e, s.amA) && u.nonce == NonceOf(e.salt, u.tx)
  }

  /** Uses are of installed keys with the counter they record, and the current counter is still unused. */
  ghost predicate Counted(s: Entry) {
    && (forall i :: 0 <= i < |s.uses| ==> UnderInstalled(s, s.uses[i]) && s.uses[i].tx < TWO_64)
    && (s.peer.Some? && s.peer.value.state == Up ==>
          && s.peer.value.cur.tx < TWO_64
          && forall i :: 0 <= i < |s.uses| && s.uses[i].inst == Latest(s) ==> s.uses[i].tx < s.peer.value.cur.tx)
    && (forall i, j :: 0 <= i < j < |s.uses| ==>
          && s.uses[i].inst <= s.uses[j].inst
          && (s.uses[i].inst != s.uses[j].inst || s.uses[i].tx != s.uses[j].tx))
  }

  ghost predicate Good(s: Entry) {
    FreshInstalls(s) && Current(s) && Counted(s)
  }

  /** A new installation whose own key pair is in none of the earlier ones. */
  lemma InstallKeeps(s: Entry, n: Entry, i: Install)
    requires Good(s)
    requires n.installs == s.installs + [i] && n.uses == s.uses && n.amA == s.amA && s.known <= n.known
    requires Values(i) <= n.known && Derived(i)
    requires forall k :: 0 <= k < |s.installs| ==> i.mine !in Values(s.installs[k])
    requires n.peer.Some? && n.peer.value.amA == s.amA && n.peer.value.state == Up && !n.peer.value.rotating
    requires n.peer.value.cur == Derive(i.epoch, i.z)
    ensures Good(n)
  {
    DeriveCounters(i.epoch, i.z);
    hide Derive, Dh.PublicBytes, Dh.SharedSecret, NonceOf;
  }

  /** More is known, and at most a pending key pair was given up. */
  lemma NoInstallKeeps(s: Entry, n: Entry)
    requires Good(s) && s.known <= n.known && n == s.(peer := n.peer, known := n.known)
    requires n.peer == s.peer || (s.peer.Some? && n.peer == Some(s.peer.value.(rotating := false)))
    ensures Good(n)
  {
    hide Derive, NonceOf;
  }

  lemma InitKeeps(s: Entry, epoch: nat, theirs: Bytes, x: Option<nat>, now: int, t: Timing)
    requires Good(s) && Allowed(s, EvInit(epoch, theirs, x, now))
    ensures Good(After(s, EvInit(epoch, theirs, x, now), t))
  {
    hide Dh.PublicBytes, Dh.SharedSecret, NonceOf, Derive, Counted;
    var n := After(s, EvInit(epoch, theirs, x, now), t);
    if |n.installs| > |s.installs| {
      InstallKeeps(s, n, n.installs[|s.installs|]);
    } else {
      NoInstallKeeps(s, n);
    }
  }

  lemma AckKeeps(s: Entry, epoch: nat, theirs: Bytes, now: int, t: Timing)
    requires Good(s) && Allowed(s, EvAck(epoch, theirs, now))
    ensures Good(After(s, EvAck(epoch, theirs, now), t))
  {
    hide Dh.PublicBytes, Dh.SharedSecret, NonceOf, Derive;
    var n := After(s, EvAck(epoch, theirs, now), t);
    if |n.installs| > |s.installs| {
      InstallKeeps(s, n, n.installs[|s.installs|]);
    }
  }

  lemma DeriveCounters(n: nat, z: Bytes)
    ensures Derive(n, z).tx == Derive(n, z).rx == 0
  {
  }

  lemma SealKeeps(s: Entry, text: string, t: Timing)
    requires Good(s) && Allowed(s, EvSeal(text))
    ensures Good(After(s, EvSeal(text), t))
  {
    hide Derive, NonceOf, Counted, SealPeer, Derived;
    SealCounted(s, text, t);
    SealedCurrent(s.peer, text);
  }

  /** Sealing moves the counter of the current epoch alone. */
  lemma SealedCurrent(p: Option<Peer>, text: string)
    ensures match SealPeer(p, text)
            case Err(_) => p.None? || p.value.state != Up
            case Ok((q, _)) => p.Some? && p.value.state == Up
                               && q == p.value.(cur := p.value.cur.(tx := (p.value.cur.tx + 1) % TWO_64))
  {
    hide NonceOf;
  }

  lemma SealCounted(s: Entry, text: string, t: Timing)
    requires Counted(s) && Current(s) && Allowed(s, EvSeal(text))
    ensures Counted(After(s, EvSeal(text), t))
  {
    var n := After(s, EvSeal(text), t);
    if s.peer.Some? && s.peer.value.state == Up {
      var use := n.uses[|s.uses|];
      hide Counted, Derive, NonceOf;
      assert UnderInstalled(s, use);
      OneMoreUse(s, n, use);
    }
  }

  /** A use of the latest installation, at the counter that was current. */
  lemma OneMoreUse(s: Entry, n: Entry, use: Use)
    requires Counted(s) && UnderInstalled(s, use)
    requires n.installs == s.installs && n.amA == s.amA && n.uses == s.uses + [use]
    requires s.peer.Some? && s.peer.value.state == Up && n.peer.Some?
    requires use.inst == Latest(s) && use.tx == s.peer.value.cur.tx && n.peer.value.cur.tx == use.tx + 1 < TWO_64
    ensures Counted(n)
  {
    SameInstalls(s, n);
    InstBound(s);
    hide UnderInstalled;
  }

  lemma InstBound(s: Entry)
    ensures forall u :: UnderInstalled(s, u) ==> u.inst <= Latest(s)
  {
    hide Derive, NonceOf, SealKey;
  }

  lemma SameInstalls(s: Entry, n: Entry)
    requires n.installs == s.installs && n.amA == s.amA
    ensures forall u :: UnderInstalled(s, u) ==> UnderInstalled(n, u)
  {
    hide Derive, NonceOf, SealKey;
  }

  lemma OpenKeeps(s: Entry, m: ChatPayload, now: int, t: Timing)
    requires Good(s)
    ensures Good(After(s, EvOpen(m, now), t))
  {
    hide Derive, NonceOf, OpenUnder;
  }

  /** A start or a timer pass at most puts a new key pair aside for an epoch to come. */
  lemma PendingKeeps(s: Entry, ev: Event, t: Timing)
    requires Good(s) && Allowed(s, ev) && (ev.EvStart? || ev.EvTick?)
    ensures Good(After(s, ev, t))
  {
    hide Derive, Dh.PublicBytes, NonceOf;
  }

  lemma EventKeeps(s: Entry, ev: Event, t: Timing)
    requires Good(s) && Allowed(s, ev)
    ensures Good(After(s, ev, t))
  {
    hide Good, After, Allowed;
    match ev
    case EvInit(epoch, theirs, x, now) => InitKeeps(s, epoch, theirs, x, now, t);
    case EvAck(epoch, theirs, now) => AckKeeps(s, epoch, theirs, now, t);
    case EvSeal(text) => SealKeeps(s, text, t);
    case EvOpen(m, now) => OpenKeeps(s, m, now, t);
    case EvStart(_, _) => PendingKeeps(s, ev, t);
    case EvTick(_, _) => PendingKeeps(s, ev, t);
  }

  function Life(s: Entry, evs: seq<Event>, t: Timing): Entry
    decreases |evs|
  {
    if evs == [] then s else Life(After(s, evs[0], t), evs[1..], t)
  }

  predicate AllAllowed(s: Entry, evs: seq<Event>, t: Timing)
    decreases |evs|
  {
    evs == [] || (Allowed(s, evs[0]) && AllAllowed(After(s, evs[0], t), evs[1..], t))
  }

  lemma {:induction false} LifeKeeps(s: Entry, evs: seq<Event>, t: Timing)
    requires Good(s) && AllAllowed(s, evs, t)
    ensures Good(Life(s, evs, t))
    decreases |evs|
  {
    hide Good, After, Allowed;
    if evs == [] {
    } else {
      EventKeeps(s, evs[0], t);
      LifeKeeps(After(s, evs[0], t), evs[1..], t);
    }
  }

  function Unused(amA: bool): Entry {
    Entry(None, amA, [], [], {})
  }

  /** Within one epoch number, equal shared secrets only arise from the same two public values. */
  predicate NoCollision(installs: seq<Install>) {
    forall i, j :: 0 <= i < j < |installs| && installs[i].epoch == installs[j].epoch && installs[i].z == installs[j].z ==>
                     Values(installs[i]) == Values(installs[j])
  }

  /** Two uses were of the same key and nonce. */
  predicate Repeats(u: Use, v: Use) {
    u.key == v.key && u.nonce == v.nonce
  }

  /** Two uses come from different installations that agree on epoch and secret, at the same counter. */
  predicate SameSecretUses(s: Entry, u: Use, v: Use)
    requires u.inst < |s.installs| && v.inst < |s.installs|
  {
    var a, b := s.installs[u.inst], s.installs[v.inst];
    u.inst != v.inst && a.epoch == b.epoch && a.z == b.z && u.tx == v.tx
  }

  /**
   * Whatever arrives, each own key pair contributes to at most one installed
   * epoch, an epoch that has been replaced is never sealed with again, and a key
   * and nonce are repeated exactly when two installations collide.
   */
  lemma RepeatsOnlyOnCollision(amA: bool, evs: seq<Event>, t: Timing)
    requires AllAllowed(Unused(amA), evs, t)
    ensures var s := Life(Unused(amA), evs, t);
            && (forall i, j :: 0 <= i < j < |s.installs| ==> s.installs[i].mine != s.installs[j].mine)
            && (forall i :: 0 <= i < |s.uses| ==> UnderInstalled(s, s.uses[i]))
            && (forall i, j :: 0 <= i < j < |s.uses| ==>
                  && s.uses[i].inst <= s.uses[j].inst
                  && (Repeats(s.uses[i], s.uses[j]) <==> SameSecretUses(s, s.uses[i], s.uses[j])))
  {
    LifeKeeps(Unused(amA), evs, t);
    var s := Life(Unused(amA), evs, t);
    hide Repeats, SameSecretUses, Life, AllAllowed, Derive, NonceOf;
    forall i, j | 0 <= i < j < |s.uses|
      ensures Repeats(s.uses[i], s.uses[j]) <==> SameSecretUses(s, s.uses[i], s.uses[j])
    {
      RepeatsWhen(s, i, j);
    }
  }

  /** Uses of any two entries are of one key and nonce exactly when side, epoch, secret and counter agree. */
  lemma KeysAndNonces(e: Entry, u: Use, f: Entry, v: Use)
    requires UnderInstalled(e, u) && UnderInstalled(f, v) && u.tx < TWO_64 && v.tx < TWO_64
    requires Derived(e.installs[u.inst]) && Derived(f.installs[v.inst])
    ensures var a, b := e.installs[u.inst], f.installs[v.inst];
            Repeats(u, v) <==> e.amA == f.amA && a.epoch == b.epoch && a.z == b.z && u.tx == v.tx
  {
    hide Derive, NonceOf, SealKey, Dh.PublicBytes, Dh.SharedSecret;
    var a, b := e.installs[u.inst], f.installs[v.inst];
    if u.key == v.key {
      HashInputs.EpochKeysDiffer(a.epoch, a.z, e.amA, b.epoch, b.z, f.amA);
      NonceRepeats(Derive(a.epoch, a.z).salt, u.tx, v.tx);
      assert u.tx % TWO_64 == u.tx && v.tx % TWO_64 == v.tx;
    }
  }

  lemma RepeatsWhen(s: Entry, i: nat, j: nat)
    requires Good(s) && i < j < |s.uses|
    ensures Repeats(s.uses[i], s.uses[j]) <==> SameSecretUses(s, s.uses[i], s.uses[j])
  {
    assert s.uses[i].inst < |s.installs| && s.uses[j].inst < |s.installs|;
    hide UnderInstalled, Derived, Repeats, Current;
    KeysAndNonces(s, s.uses[i], s, s.uses[j]);
  }

  /** Without such a collision no two seals share both key and nonce. */
  lemma NonceNeverRepeats(amA: bool, evs: seq<Event>, t: Timing)
    requires AllAllowed(Unused(amA), evs, t)
    requires NoCollision(Life(Unused(amA), evs, t).installs)
    ensures var s := Life(Unused(amA), evs, t);
            forall i, j :: 0 <= i < j < |s.uses| ==> !Repeats(s.uses[i], s.uses[j])
  {
    LifeKeeps(Unused(amA), evs, t);
    RepeatsOnlyOnCollision(amA, evs, t);
  }
}
