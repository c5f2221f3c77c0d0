/**
 * The bound on delays is exact: at half the grace window there is a run in
 * which a message arrives just as its epoch has expired. The run is given for
 * every choice of honest exponents, and exponents of the width that key
 * generation draws exist.
 */
module GraceBound {
  import opened Wrappers
  import opened ByteStrings
  import opened Crypto
  import opened E2e
  import opened Rotation
  import opened Delivery
  import opened Grace
  import Dh

  /** The exponents drawn: by a and b for the first epoch, then for the second. */
  datatype Draws = Draws(a0: nat, b0: nat, a1: nat, b1: nat)

  predicate AllHonest(d: Draws) {
    Honest(d.a0) && Honest(d.b0) && Honest(d.a1) && Honest(d.b1)
  }

  function Secret(mine: nat, theirs: nat): Bytes {
    if Dh.SharedSecret(mine, Dh.PublicBytes(theirs)).Some? then Dh.SharedSecret(mine, Dh.PublicBytes(theirs)).value else []
  }

  /** The secrets of the two epochs. */
  function Z0(d: Draws): Bytes {
    Secret(d.b0, d.a0)
  }

  function Z1(d: Draws): Bytes {
    Secret(d.b1, d.a1)
  }

  function Pair(x: nat): Dh.Ephemeral {
    Dh.Ephemeral(x, Dh.PublicBytes(x))
  }

  // The two clients in session, then with a rotation under way.

  function A0(d: Draws): Peer {
    Peer(Up, true, Derive(0, Z0(d)), false, BlankEpoch(), 0, 0, false, 0, Pair(d.a0), 0)
  }

  function B0(d: Draws): Peer {
    Peer(Up, false, Derive(0, Z0(d)), false, BlankEpoch(), 0, 0, false, 0, BlankPair(), 0)
  }

  function A1(d: Draws, due: nat): Peer {
    A0(d).(rotating := true, nextEpoch := 1, nextKp := Pair(d.a1), rotSent := due)
  }

  function B1(d: Draws, due: nat, t: Timing): Peer {
    Retire(B0(d), Derive(1, Z1(d)), due, t.grace)
  }

  function Late(d: Draws): ChatPayload {
    var e := Derive(0, Z0(d));
    Chat(0, Sealed(e.kA2b, NonceOf(e.salt, 0), 0, "late"))
  }

  function A2(d: Draws, due: nat): Peer {
    A1(d, due).(cur := Derive(0, Z0(d)).(tx := 1))
  }

  function A3(d: Draws, due: nat, delay: nat, t: Timing): Peer {
    Retire(A2(d, due), Derive(1, Z1(d)), due + delay, t.grace)
  }

  function InSession(d: Draws, now: int): Sys {
    Sys(Node(Some(A0(d)), [], 0, [], [], 0, 0), Node(Some(B0(d)), [], 0, [], [], 0, 0), [Z0(d)], now)
  }

  function Init1(d: Draws, due: nat): Flight {
    Flight(Init(1, Dh.PublicBytes(d.a1)), 1, due)
  }

  function Ack1(d: Draws, due: nat): Flight {
    Flight(Ack(1, Dh.PublicBytes(d.b1)), 1, due)
  }

  function Asking(d: Draws, due: nat): Sys {
    Sys(Node(Some(A1(d, due)), [Init1(d, due)], 0, [], [], 0, 0),
        Node(Some(B0(d)), [], 0, [], [], 0, 0), [Z0(d)], due)
  }

  function Answered(d: Draws, due: nat, t: Timing, now: int): Sys {
    Sys(Node(Some(A1(d, due)), [], 0, [], [], 0, 0),
        Node(Some(B1(d, due, t)), [Ack1(d, due)], 1, [], [], 0, 0), [Z0(d), Z1(d)], now)
  }

  function Speaking(d: Draws, due: nat, delay: nat, t: Timing): Sys {
    Sys(Node(Some(A2(d, due)), [Flight(Text(Late(d)), 0, due + delay)], 0, ["late"], [], 0, 0),
        Node(Some(B1(d, due, t)), [Ack1(d, due)], 1, [], [], 0, 0), [Z0(d), Z1(d)], due + delay)
  }

  function Waiting(d: Draws, due: nat, delay: nat, t: Timing, now: int): Sys {
    Sys(Node(Some(A3(d, due, delay, t)), [Flight(Text(Late(d)), 0, due + delay)], 1, ["late"], [], 0, 0),
        Node(Some(B1(d, due, t)), [], 1, [], [], 0, 0), [Z0(d), Z1(d)], now)
  }

  lemma Secrets(d: Draws)
    requires AllHonest(d)
    ensures Dh.SharedSecret(d.b0, Dh.PublicBytes(d.a0)) == Dh.SharedSecret(d.a0, Dh.PublicBytes(d.b0)) == Some(Z0(d))
    ensures Dh.SharedSecret(d.b1, Dh.PublicBytes(d.a1)) == Dh.SharedSecret(d.a1, Dh.PublicBytes(d.b1)) == Some(Z1(d))
  {
    Dh.Agreement(d.a0, d.b0);
    Dh.Agreement(d.a1, d.b1);
  }

  lemma Heads(d: Draws)
    ensures Derive(0, Z0(d)).n == 0 && Derive(0, Z0(d)).tx == 0 && Derive(1, Z1(d)).n == 1
  {
    DeriveHead(0, Z0(d));
    DeriveHead(1, Z1(d));
  }

  /** One legal step from a state in which nothing is late. */
  predicate Goes(s: Sys, step: Step, e: Sys, t: Timing, delay: nat) {
    Legal(s, step) && Prompt(s, delay) && Next(s, step, t) == e
  }

  function Requested(d: Draws): Sys {
    Sys(Node(Some(StartPeer(true, Pair(d.a0), 0)), [Flight(Init(0, Dh.PublicBytes(d.a0)), 0, 0)], -1, [], [], 0, 0),
        Initial().b, [], 0)
  }

  function Replied(d: Draws): Sys {
    Sys(Node(Some(StartPeer(true, Pair(d.a0), 0)), [], -1, [], [], 0, 0),
        Node(Some(B0(d)), [Flight(Ack(0, Dh.PublicBytes(d.b0)), 0, 0)], 0, [], [], 0, 0), [Z0(d)], 0)
  }

  lemma Requests(d: Draws, t: Timing, delay: nat)
    requires AllHonest(d)
    ensures Goes(Initial(), Start(A, d.a0), Requested(d), t, delay)
  {
    hide Dh.PublicBytes, Honest;
  }

  lemma Replies(d: Draws, t: Timing, delay: nat)
    requires AllHonest(d)
    ensures Goes(Requested(d), Deliver(B, d.b0), Replied(d), t, delay)
  {
    Secrets(d);
    FirstAnswer(d, t);
    hide Derive, Dh.SharedSecret, Dh.PublicBytes, Honest, Z0, Z1, StartPeer, Received;
  }

  lemma FirstAnswer(d: Draws, t: Timing)
    requires AllHonest(d)
    ensures Received(Initial().b, false, Init(0, Dh.PublicBytes(d.a0)), d.b0, 0, t) == Replied(d).b
  {
    Secrets(d);
    hide Derive, Dh.SharedSecret, Dh.PublicBytes, Honest, Z0, Z1;
  }

  lemma Opens(d: Draws, t: Timing, delay: nat)
    requires AllHonest(d)
    ensures Goes(Replied(d), Deliver(A, d.b0), InSession(d, 0), t, delay)
  {
    FirstAck(d, t);
    hide Derive, Dh.SharedSecret, Dh.PublicBytes, Honest, Z0, Z1, StartPeer, Received;
  }

  lemma FirstAck(d: Draws, t: Timing)
    requires AllHonest(d)
    ensures Received(Replied(d).a, true, Ack(0, Dh.PublicBytes(d.b0)), d.b0, 0, t) == InSession(d, 0).a
  {
    Secrets(d);
    hide Derive, Dh.SharedSecret, Dh.PublicBytes, Honest, Z0, Z1;
  }

  lemma Pauses(s: Sys, wait: nat, e: Sys, t: Timing, delay: nat)
    requires e == s.(now := s.now + wait) && Prompt(s, delay)
    ensures Goes(s, Wait(wait), e, t, delay)
  {
    hide Prompt;
  }

  lemma Asks(d: Draws, t: Timing, due: nat, delay: nat)
    requires AllHonest(d) && due == t.rekey * 1_000_000_000
    ensures Goes(InSession(d, due), Tick(A, Some(d.a1)), Asking(d, due), t, delay)
  {
    Heads(d);
    assert WholeSeconds(due) == t.rekey;
    hide Derive, Dh.PublicBytes, Z0, Z1, WholeSeconds, Honest;
  }

  lemma Answers(d: Draws, t: Timing, due: nat, delay: nat)
    requires AllHonest(d)
    ensures Goes(Asking(d, due), Deliver(B, d.b1), Answered(d, due, t, due), t, delay)
  {
    Secrets(d);
    SecondAnswer(d, t, due);
    hide Derive, Dh.SharedSecret, Dh.PublicBytes, Honest, Z0, Z1, A1, B0, B1, Received;
  }

  lemma SecondAnswer(d: Draws, t: Timing, due: nat)
    requires AllHonest(d)
    ensures Received(Asking(d, due).b, false, Init(1, Dh.PublicBytes(d.a1)), d.b1, due, t) == Answered(d, due, t, due).b
  {
    Secrets(d);
    hide Derive, Dh.SharedSecret, Dh.PublicBytes, Honest, Z0, Z1;
  }

  lemma Speaks(d: Draws, t: Timing, due: nat, delay: nat)
    ensures Goes(Answered(d, due, t, due + delay), Say(A, "late"), Speaking(d, due, delay, t), t, delay)
  {
    Heads(d);
    hide Derive, Dh.PublicBytes, Z0, Z1, NonceOf;
  }

  lemma Completes(d: Draws, t: Timing, due: nat, delay: nat)
    requires AllHonest(d)
    ensures Goes(Speaking(d, due, delay, t), Deliver(A, d.b1), Waiting(d, due, delay, t, due + delay), t, delay)
  {
    Secrets(d);
    hide Derive, Dh.SharedSecret, Dh.PublicBytes, Honest, Z0, Z1, Late;
  }

  /** The message for the retired epoch is refused: its window has just closed. */
  lemma LateRefused(d: Draws, t: Timing, due: nat, now: int)
    requires now >= due + t.grace * SECOND
    ensures OpenPeer(Some(B1(d, due, t)), Late(d), now) == Err("unknown or expired E2E epoch")
  {
    Heads(d);
    hide Derive, Z0, Z1, NonceOf;
  }

  lemma Expires(d: Draws, t: Timing, due: nat, delay: nat)
    requires AllHonest(d) && 2 * delay >= t.grace * SECOND
    ensures var s := Waiting(d, due, delay, t, due + delay + delay);
            var e := Next(s, Deliver(B, d.b1), t);
            Goes(s, Deliver(B, d.b1), e, t, delay) && Refusing(e, [], t, delay)
  {
    LateRefused(d, t, due, due + delay + delay);
    hide OpenPeer, Late, Derive, Honest, A3, B1;
  }

  /** From s the steps are legal and prompt and end with a refusal at b. */
  predicate Refusing(s: Sys, steps: seq<Step>, t: Timing, delay: nat) {
    LegalRun(s, steps, t) && PromptRun(s, steps, t, delay) && Run(s, steps, t).b.refused == 1
  }

  lemma StepFirst(s: Sys, step: Step, e: Sys, steps: seq<Step>, t: Timing, delay: nat)
    requires Goes(s, step, e, t, delay) && Refusing(e, steps, t, delay)
    ensures Refusing(s, [step] + steps, t, delay)
  {
    hide Legal, Next, Prompt;
    assert ([step] + steps)[1..] == steps;
  }

  /** The request is answered at once, everything after it takes the whole delay. */
  function Rotates(d: Draws, delay: nat): seq<Step> {
    [Tick(A, Some(d.a1))] + ([Deliver(B, d.b1)] + ([Wait(delay)] + ([Say(A, "late")]
    + ([Deliver(A, d.b1)] + ([Wait(delay)] + ([Deliver(B, d.b1)] + []))))))
  }

  function TooLate(d: Draws, t: Timing, delay: nat): seq<Step> {
    [Start(A, d.a0)] + ([Deliver(B, d.b0)] + ([Deliver(A, d.b0)] + ([Wait(t.rekey * 1_000_000_000)] + Rotates(d, delay))))
  }

  /** The three pauses change nothing but the clock, and nothing is late before them. */
  lemma Paused(d: Draws, due: nat, delay: nat, t: Timing)
    ensures InSession(d, due) == InSession(d, 0).(now := due) && Prompt(InSession(d, 0), delay) && InSession(d, 0).now == 0
    ensures var s := Answered(d, due, t, due);
            Answered(d, due, t, due + delay) == s.(now := s.now + delay) && Prompt(s, delay)
    ensures var s := Waiting(d, due, delay, t, due + delay);
            Waiting(d, due, delay, t, due + delay + delay) == s.(now := s.now + delay) && Prompt(s, delay)
  {
    hide A0, B0, A1, B1, A3, Late, Z0, Z1, Dh.PublicBytes;
  }

  lemma LateRotation(d: Draws, t: Timing, due: nat, delay: nat)
    requires AllHonest(d) && due == t.rekey * 1_000_000_000 && 2 * delay >= t.grace * SECOND
    ensures Refusing(InSession(d, due), Rotates(d, delay), t, delay)
  {
    var last := Waiting(d, due, delay, t, due + delay + delay);
    var r1 := [Deliver(B, d.b1)] + [];
    var r2 := [Wait(delay)] + r1;
    var r3 := [Deliver(A, d.b1)] + r2;
    var r4 := [Say(A, "late")] + r3;
    var r5 := [Wait(delay)] + r4;
    var r6 := [Deliver(B, d.b1)] + r5;
    assert Rotates(d, delay) == [Tick(A, Some(d.a1))] + r6;
    Paused(d, due, delay, t);
    hide *;
    Asks(d, t, due, delay);
    Answers(d, t, due, delay);
    Pauses(Answered(d, due, t, due), delay, Answered(d, due, t, due + delay), t, delay);
    Speaks(d, t, due, delay);
    Completes(d, t, due, delay);
    Pauses(Waiting(d, due, delay, t, due + delay), delay, last, t, delay);
    Expires(d, t, due, delay);
    StepFirst(last, Deliver(B, d.b1), Next(last, Deliver(B, d.b1), t), [], t, delay);
    StepFirst(Waiting(d, due, delay, t, due + delay), Wait(delay), last, r1, t, delay);
    StepFirst(Speaking(d, due, delay, t), Deliver(A, d.b1), Waiting(d, due, delay, t, due + delay), r2, t, delay);
    StepFirst(Answered(d, due, t, due + delay), Say(A, "late"), Speaking(d, due, delay, t), r3, t, delay);
    StepFirst(Answered(d, due, t, due), Wait(delay), Answered(d, due, t, due + delay), r4, t, delay);
    StepFirst(Asking(d, due), Deliver(B, d.b1), Answered(d, due, t, due), r5, t, delay);
    StepFirst(InSession(d, due), Tick(A, Some(d.a1)), Asking(d, due), r6, t, delay);
  }

  lemma LateRun(d: Draws, t: Timing, delay: nat)
    requires AllHonest(d) && 2 * delay >= t.grace * SECOND
    ensures Refusing(Initial(), TooLate(d, t, delay), t, delay)
  {
    var due := t.rekey * 1_000_000_000;
    var r1 := [Wait(due)] + Rotates(d, delay);
    var r2 := [Deliver(A, d.b0)] + r1;
    var r3 := [Deliver(B, d.b0)] + r2;
    assert TooLate(d, t, delay) == [Start(A, d.a0)] + r3;
    Paused(d, due, delay, t);
    hide *;
    Requests(d, t, delay);
    Replies(d, t, delay);
    Opens(d, t, delay);
    Pauses(InSession(d, 0), due, InSession(d, due), t, delay);
    LateRotation(d, t, due, delay);
    StepFirst(InSession(d, 0), Wait(due), InSession(d, due), Rotates(d, delay), t, delay);
    StepFirst(Replied(d), Deliver(A, d.b0), InSession(d, 0), r1, t, delay);
    StepFirst(Requested(d), Deliver(B, d.b0), Replied(d), r2, t, delay);
    StepFirst(Initial(), Start(A, d.a0), Requested(d), r3, t, delay);
  }

  /** Every exponent drawn in the run has the width that key generation draws. */
  predicate Drawn(steps: seq<Step>) {
    forall i :: 0 <= i < |steps| ==>
                  match steps[i]
                  case Start(_, x) => Dh.FullWidth(x)
                  case Tick(_, rnd) => rnd.Some? ==> Dh.FullWidth(rnd.value)
                  case Deliver(_, x) => Dh.FullWidth(x)
                  case Say(_, _) => true
                  case Wait(_) => true
  }

  /** If the program can make the run and it is prompt, no message in it is refused. */
  predicate Undisturbed(steps: seq<Step>, t: Timing, delay: nat) {
    Drawn(steps) && LegalRun(Initial(), steps, t) && PromptRun(Initial(), steps, t, delay) ==>
      var s := Run(Initial(), steps, t);
      s.a.refused == s.b.refused == 0
  }

  lemma RefusingDisturbs(steps: seq<Step>, t: Timing, delay: nat)
    requires Drawn(steps) && Refusing(Initial(), steps, t, delay)
    ensures !Undisturbed(steps, t, delay)
  {
    hide LegalRun, PromptRun, Run, Drawn;
  }

  lemma TooLateDrawn(d: Draws, t: Timing, delay: nat)
    requires Dh.FullWidth(d.a0) && Dh.FullWidth(d.b0) && Dh.FullWidth(d.a1) && Dh.FullWidth(d.b1)
    ensures Drawn(TooLate(d, t, delay))
  {
    hide Dh.FullWidth;
  }

  /** Prompt runs are all undisturbed exactly when twice the delay is below the grace window. */
  lemma GraceIsExact(t: Timing, delay: nat)
    ensures 2 * delay < t.grace * SECOND <==> forall steps :: Undisturbed(steps, t, delay)
  {
    if 2 * delay < t.grace * SECOND {
      forall steps ensures Undisturbed(steps, t, delay) {
        hide TooLate, Drawn;
        if LegalRun(Initial(), steps, t) && PromptRun(Initial(), steps, t, delay) {
          NothingExpires(steps, t, delay);
        }
      }
    } else {
      hide Undisturbed, Refusing, TooLate, Drawn;
      var x, y := Dh.HonestExponents();
      var d := Draws(x, y, y, x);
      LateRun(d, t, delay);
      TooLateDrawn(d, t, delay);
      RefusingDisturbs(TooLate(d, t, delay), t, delay);
    }
  }
}
