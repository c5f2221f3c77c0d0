/**
 * The grace window is long enough: when no message is on the way for longer
 * than half of it, none arrives after its epoch has expired.
 */
module Grace {
  import opened Wrappers
  import opened ByteStrings
  import opened Crypto
  import opened E2e
  import opened Rotation
  import opened Delivery
  import Dh

  /** No message has been on the way for longer than `delay`. */
  predicate Prompt(s: Sys, delay: nat) {
    && (forall f :: f in s.a.out ==> s.now <= f.at + delay)
    && (forall f :: f in s.b.out ==> s.now <= f.at + delay)
  }

  predicate PromptRun(s: Sys, steps: seq<Step>, t: Timing, delay: nat)
    decreases |steps|
  {
    Prompt(s, delay) && (steps == [] || PromptRun(Next(s, steps[0], t), steps[1..], t, delay))
  }

  /** n's clock readings, and the ages of the messages from y that n will open under its previous epoch. */
  predicate Clocked(n: Node, y: Node, now: int, t: Timing, delay: nat) {
    && (forall f :: f in y.out ==> f.at <= now && (f.msg.Text? ==> f.idx >= 0))
    && (n.idx >= 1 && n.peer.Some? ==>
          var p := n.peer.value;
          && p.graceUntil == p.epochStart + t.grace * SECOND
          && (p.havePrev || p.graceUntil <= now)
          && (forall f :: f in y.out && f.msg.Text? && f.idx == n.idx - 1 ==> f.at <= p.epochStart + delay))
  }

  predicate BothClocked(s: Sys, t: Timing, delay: nat) {
    Clocked(s.a, s.b, s.now, t, delay) && Clocked(s.b, s.a, s.now, t, delay)
  }

  lemma {:induction false} KexFromChannel(q: seq<Flight>, f: Flight)
    requires f in Kex(q)
    ensures f in q
  {
    if !q[0].msg.Text? && f == q[0] {
    } else {
      KexFromChannel(q[1..], f);
    }
  }

  /** While y lags behind n, n's answer is still on its way, so little time has passed since n moved on. */
  lemma LaggardIsRecent(n: Node, y: Node, amA: bool, secrets: seq<Bytes>, now: int, delay: nat)
    requires Sound(n, y, amA, secrets) && y.idx < n.idx
    requires forall f :: f in n.out ==> now <= f.at + delay
    ensures n.peer.Some? && now <= n.peer.value.epochStart + delay
  {
    hide Derive, Dh.SharedSecret, Dh.PublicBytes, Dh.ValidPublic;
    assert Ahead(y, n, !amA, secrets);
    var k := Kex(n.out);
    var stale := if k[0].msg.Init? then 1 else 0;
    KexFromChannel(n.out, k[stale]);
  }

  /** At most an INIT or a text was appended to n's channel, nothing was installed. */
  predicate SendsOnly(n: Node, m: Node, now: int) {
    && m.idx == n.idx && (m.idx >= 1 ==> m.peer.Some? && n.peer.Some?)
    && (m.peer.Some? && n.peer.Some? ==>
          && m.peer.value.graceUntil == n.peer.value.graceUntil
          && m.peer.value.epochStart == n.peer.value.epochStart
          && (m.peer.value.havePrev == n.peer.value.havePrev || m.peer.value.graceUntil <= now))
    && (m.out == n.out
        || (m.out != [] && m.out == n.out + [m.out[|m.out| - 1]]
            && var f := m.out[|m.out| - 1];
               f.at == now && (f.msg.Text? ==> f.idx == n.idx >= 0)))
  }

  lemma SentClocked(n: Node, m: Node, y: Node, now: int, t: Timing, delay: nat)
    requires Clocked(n, y, now, t, delay) && Clocked(y, n, now, t, delay)
    requires SendsOnly(n, m, now)
    requires n.idx < y.idx && y.peer.Some? ==> now <= y.peer.value.epochStart + delay
    ensures Clocked(m, y, now, t, delay) && Clocked(y, m, now, t, delay)
  {
  }

  lemma StepClocked(s: Sys, step: Step, t: Timing, delay: nat)
    requires Inv(s) && BothClocked(s, t, delay) && Prompt(s, delay) && Legal(s, step)
    ensures BothClocked(Next(s, step, t), t, delay)
  {
    hide Derive, Dh.SharedSecret, Dh.PublicBytes, Dh.ValidPublic, Shaped, Clocked, Received, Started, Ticked, Said,
         SendsOnly, Recorded;
    if step.Wait? {
      WaitClocked(s.a, s.b, s.now, s.now + step.d, t, delay);
      WaitClocked(s.b, s.a, s.now, s.now + step.d, t, delay);
      return;
    }
    var n, y := At(s, step.side), At(s, Other(step.side));
    SeenFromEitherSide(s, step.side);
    SeenFromEitherSide(s, Other(step.side));
    if step.Deliver? {
      DequeuedClocked(n, y, s.now, t, delay);
      ReceivedClocked(n, y.(out := y.out[1..]), step.side == A, y.out[0].msg, step.x, s.now, t, delay, s.secrets);
    } else {
      if n.idx < y.idx {
        LaggardIsRecent(y, n, step.side != A, s.secrets, s.now, delay);
      }
      var m := At(Next(s, step, t), step.side);
      OnlySent(n, m, s, step, t);
      SentClocked(n, m, y, s.now, t, delay);
    }
  }

  lemma OnlySent(n: Node, m: Node, s: Sys, step: Step, t: Timing)
    requires Inv(s) && Legal(s, step) && !step.Wait? && !step.Deliver?
    requires n == At(s, step.side) && m == At(Next(s, step, t), step.side)
    ensures At(Next(s, step, t), Other(step.side)) == At(s, Other(step.side)) && Next(s, step, t).now == s.now
    ensures SendsOnly(n, m, s.now)
  {
    hide Derive, Dh.SharedSecret, Dh.PublicBytes, Dh.ValidPublic, OpenUnder, Shaped, NonceOf;
    if m.out != n.out {
      assert m.out == n.out + [m.out[|n.out|]];
    }
  }

  lemma WaitClocked(n: Node, y: Node, now: int, later: int, t: Timing, delay: nat)
    requires Clocked(n, y, now, t, delay) && now <= later
    ensures Clocked(n, y, later, t, delay)
  {
  }

  lemma DequeuedClocked(n: Node, y: Node, now: int, t: Timing, delay: nat)
    requires Clocked(n, y, now, t, delay) && Clocked(y, n, now, t, delay) && y.out != []
    ensures Clocked(n, y.(out := y.out[1..]), now, t, delay) && Clocked(y.(out := y.out[1..]), n, now, t, delay)
  {
    assert forall f :: f in y.out[1..] ==> f in y.out;
  }

  /** Handling a message moves the clock readings only when an epoch is installed, and then to now. */
  lemma ReceivedClocked(n: Node, y: Node, amA: bool, msg: Msg, x: nat, now: int, t: Timing, delay: nat,
                        secrets: seq<Bytes>)
    requires Settled(n, amA, secrets)
    requires Clocked(n, y, now, t, delay) && Clocked(y, n, now, t, delay)
    ensures Clocked(Received(n, amA, msg, x, now, t), y, now, t, delay)
    ensures Clocked(y, Received(n, amA, msg, x, now, t), now, t, delay)
  {
    hide Derive, Dh.SharedSecret, Dh.PublicBytes, Dh.ValidPublic, OpenUnder;
  }

  /** With twice the delay below the grace period, a message for the previous epoch arrives in time. */
  lemma PromptIsInTime(s: Sys, step: Step, t: Timing, delay: nat)
    requires BothClocked(s, t, delay) && Prompt(s, delay) && 2 * delay < t.grace * SECOND
    ensures StepInTime(s, step)
  {
  }

  lemma {:induction false} RunClocked(s: Sys, steps: seq<Step>, t: Timing, delay: nat)
    requires Inv(s) && BothClocked(s, t, delay) && 2 * delay < t.grace * SECOND
    requires LegalRun(s, steps, t) && PromptRun(s, steps, t, delay)
    ensures RunInTime(s, steps, t)
    decreases |steps|
  {
    hide Inv, BothClocked, Prompt, Next, Legal, StepInTime;
    if steps == [] {
    } else {
      PromptIsInTime(s, steps[0], t, delay);
      StepKeeps(s, steps[0], t);
      StepClocked(s, steps[0], t, delay);
      RunClocked(Next(s, steps[0], t), steps[1..], t, delay);
    }
  }

  /**
   * If every one-way delay is below half the grace period, no message is ever
   * refused as belonging to an unknown or expired epoch.
   */
  lemma NothingExpires(steps: seq<Step>, t: Timing, delay: nat)
    requires 2 * delay < t.grace * SECOND
    requires LegalRun(Initial(), steps, t) && PromptRun(Initial(), steps, t, delay)
    ensures var s := Run(Initial(), steps, t);
            s.a.refused == s.b.refused == 0 && s.b.got <= s.a.sent && s.a.got <= s.b.sent
  {
    assert Inv(Initial());
    RunClocked(Initial(), steps, t, delay);
    Lossless(steps, t);
  }
}
