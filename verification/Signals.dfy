/** The signal ratchet of ltp-pan.c: `wait_handler` turns what pan receives into what it sends on. */
module Signals {

  const SIGHUP := 1
  const SIGINT := 2
  const SIGKILL := 9
  const SIGUSR1 := 10
  const SIGUSR2 := 12
  const SIGALRM := 14
  const SIGTERM := 15

  /** The signals whose handler is wait_handler. */
  const Caught: set<int> := {SIGHUP, SIGINT, SIGUSR1, SIGUSR2, SIGALRM, SIGTERM}

  /** rec_signal, send_signal and the static lastsent; 0 is "none". */
  datatype Ratchet = Ratchet(received: int, sending: int, lastSent: int)

  function WaitHandler(r: Ratchet, sig: int): Ratchet {
    if sig == 0 then r.(lastSent := 0)
    else if sig == SIGUSR2 then r.(received := sig)
    else
      var send := if r.lastSent == 0 then sig
                  else if r.lastSent == SIGUSR1 then SIGINT
                  else if r.lastSent == sig then SIGTERM
                  else if r.lastSent == SIGTERM then SIGHUP
                  else if r.lastSent == SIGHUP then SIGKILL
                  else r.sending;
      Ratchet(sig, send, send)
  }

  /** propagate_signal resets both signals once they have been sent on. */
  function Propagated(r: Ratchet): Ratchet { r.(received := 0, sending := 0) }

  /** The signals sent in n rounds, each of them one sig received and then propagated. */
  function Sent(r: Ratchet, sig: int, n: nat): (sent: seq<int>)
    ensures |sent| == n
    decreases n
  {
    if n == 0 then []
    else var h := WaitHandler(r, sig); [h.sending] + Sent(Propagated(h), sig, n - 1)
  }

  /** How many SIGINT rounds from here send SIGKILL; any value outside the ratchet costs one round that sends
      nothing and rewinds it. */
  function RoundsToKill(lastSent: int): nat {
    if lastSent == SIGHUP then 1
    else if lastSent == SIGTERM then 2
    else if lastSent == SIGINT then 3
    else if lastSent == SIGUSR1 || lastSent == 0 then 4
    else 5
  }

  /** When a signal that is received again and again is at some time sent on as SIGKILL: always for SIGINT and SIGALRM,
      and for two others while the ratchet stands near its end. */
  predicate Escalates(sig: int, lastSent: int) {
    || sig == SIGINT || sig == SIGALRM
    || (sig == SIGTERM && lastSent == SIGHUP)
    || (sig == SIGUSR1 && lastSent in {SIGTERM, SIGHUP})
  }

  /** How many rounds of such a signal are enough. */
  function Rounds(sig: int, lastSent: int): nat {
    if sig == SIGINT then RoundsToKill(lastSent)
    else if lastSent == SIGHUP then 1
    else if lastSent == SIGTERM then 2
    else if lastSent == SIGALRM then 3
    else if lastSent == 0 then 4
    else if lastSent == SIGUSR1 then 6
    else 5
  }

  lemma {:induction false} RepeatsKill(r: Ratchet, sig: int, n: nat)
    requires r.sending == 0 && sig in Caught && Escalates(sig, r.lastSent) && n >= Rounds(sig, r.lastSent)
    ensures SIGKILL in Sent(r, sig, n)
    decreases n
  {
    var h := WaitHandler(r, sig);
    assert Sent(r, sig, n)[0] == h.sending;
    if r.lastSent != SIGHUP { RepeatsKill(Propagated(h), sig, n - 1); }
  }

  lemma {:induction false} InterruptsKill(r: Ratchet, n: nat)
    requires r.sending == 0
    ensures SIGKILL in Sent(r, SIGINT, n) || n < RoundsToKill(r.lastSent)
  {
    if n >= RoundsToKill(r.lastSent) { RepeatsKill(r, SIGINT, n); }
  }

  /** Whatever was sent last, five or more consecutive SIGINT rounds send SIGKILL at least once. */
  lemma {:induction false} FiveInterruptsKill(r: Ratchet, n: nat)
    requires r.sending == 0 && n >= 5
    ensures SIGKILL in Sent(r, SIGINT, n)
  {
    InterruptsKill(r, n);
  }

  /** Four rounds are not enough: after a SIGKILL the next round sends nothing and only rewinds the ratchet. */
  lemma {:induction false} FourInterruptsMayNotKill()
    ensures SIGKILL !in Sent(Ratchet(0, 0, SIGKILL), SIGINT, 4)
  {
    assert Sent(Ratchet(0, 0, SIGKILL), SIGINT, 4) == [0, SIGINT, SIGTERM, SIGHUP];
  }

  lemma {:induction false} NeverKills(r: Ratchet, sig: int, n: nat)
    requires r.sending == 0 && sig in Caught && !Escalates(sig, r.lastSent)
    ensures SIGKILL !in Sent(r, sig, n)
    decreases n
  {
    if n > 0 {
      var h := WaitHandler(r, sig);
      NeverKills(Propagated(h), sig, n - 1);
      assert Sent(r, sig, n) == [h.sending] + Sent(Propagated(h), sig, n - 1);
    }
  }

  /** From every state between two rounds, a repeated signal comes to SIGKILL exactly if it escalates: SIGINT and
      SIGALRM always, SIGTERM only after SIGHUP was sent last, SIGUSR1 only after SIGTERM or SIGHUP. */
  lemma {:induction false} EscalationExactly(r: Ratchet, sig: int)
    requires r.sending == 0 && sig in Caught
    ensures (exists n: nat :: SIGKILL in Sent(r, sig, n)) <==> Escalates(sig, r.lastSent)
  {
    if Escalates(sig, r.lastSent) {
      RepeatsKill(r, sig, 6);
    } else {
      forall n: nat ensures SIGKILL !in Sent(r, sig, n) { NeverKills(r, sig, n); }
    }
  }

  /** Repeated SIGTERM on a reset ratchet stays SIGTERM. */
  lemma {:induction false} RepeatedTermNeverKills(n: nat)
    ensures SIGKILL !in Sent(Ratchet(0, 0, 0), SIGTERM, n)
  {
    NeverKills(Ratchet(0, 0, 0), SIGTERM, n);
  }

  /** Both exceptions are met in runs: three rounds of SIGINT and one of SIGTERM, and two of SIGINT and two of SIGUSR1. */
  lemma {:induction false} ExceptionsAreMet()
    ensures var r := Ratchet(0, 0, 0); var i := Propagated(WaitHandler(r, SIGINT));
      var ii := Propagated(WaitHandler(i, SIGINT)); var iii := Propagated(WaitHandler(ii, SIGINT));
      && Sent(iii, SIGTERM, 1) == [SIGKILL] && Sent(ii, SIGUSR1, 2) == [SIGHUP, SIGKILL]
  {
    var ii := Ratchet(0, 0, SIGTERM);
    assert Sent(Ratchet(0, 0, SIGHUP), SIGTERM, 1) == [SIGKILL];
    assert Sent(ii, SIGUSR1, 2) == [SIGHUP, SIGKILL];
  }

  // ------------------------------------------------------------- one signal, again and again

  /** What round k of a signal sends, after a reset: SIGINT and SIGALRM are passed on, then come SIGTERM, SIGHUP and SIGKILL and
      a round without; SIGHUP alternates with SIGTERM; SIGTERM stays; SIGUSR1 is passed on, then comes SIGINT and a round without;
      and SIGUSR2 is never passed on. */
  function Round(sig: int, k: nat): int {
    if sig == SIGINT || sig == SIGALRM then
      (match k % 5 case 0 => sig case 1 => SIGTERM case 2 => SIGHUP case 3 => SIGKILL case _ => 0)
    else if sig == SIGHUP then (if k % 2 == 0 then SIGHUP else SIGTERM)
    else if sig == SIGTERM then SIGTERM
    else if sig == SIGUSR1 then (match k % 3 case 0 => SIGUSR1 case 1 => SIGINT case _ => 0)
    else 0
  }

  /** What was sent last when round k comes. */
  function LastBefore(sig: int, k: nat): int { if k == 0 then 0 else Round(sig, k - 1) }

  lemma {:induction false} OneBefore(k: nat, m: nat)
    requires k > 0 && m in {2, 3, 5}
    ensures (k - 1) % m == if k % m == 0 then m - 1 else k % m - 1
  {
  }

  lemma {:induction false} OneRound(r: Ratchet, sig: int, k: nat)
    requires r.sending == 0 && sig in Caught && r.lastSent == LastBefore(sig, k)
    ensures var h := WaitHandler(r, sig);
      h.sending == Round(sig, k) && h.lastSent == LastBefore(sig, k + 1) && h.received == sig
  {
    if k > 0 {
      OneBefore(k, 2);
      OneBefore(k, 3);
      OneBefore(k, 5);
    }
  }

  lemma {:induction false} SentFrom(r: Ratchet, sig: int, n: nat, k: nat, i: nat)
    requires r.sending == 0 && sig in Caught && r.lastSent == LastBefore(sig, k) && i < n
    ensures Sent(r, sig, n)[i] == Round(sig, k + i)
    decreases n
  {
    hide Round, LastBefore, WaitHandler;
    OneRound(r, sig, k);
    if i > 0 { SentFrom(Propagated(WaitHandler(r, sig)), sig, n - 1, k + 1, i - 1); }
  }

  /** Every round of every signal that the handler catches, from a reset ratchet on. */
  lemma {:induction false} SentExactly(r: Ratchet, sig: int, n: nat, i: nat)
    requires sig in Caught && r.sending == 0 && i < n
    ensures Sent(WaitHandler(r, 0), sig, n)[i] == Round(sig, i)
  {
    hide Round;
    SentFrom(WaitHandler(r, 0), sig, n, 0, i);
  }

  /** A round of SIGUSR2 in between makes no difference to what later rounds send; and whatever is received is recorded, also
      over a reset, which forgets only what was sent last. */
  lemma {:induction false} StopLeavesRatchet(r: Ratchet, sig: int, n: nat)
    requires r.sending == 0
    ensures Sent(Propagated(WaitHandler(r, SIGUSR2)), sig, n) == Sent(r, sig, n)
    ensures sig != 0 ==> WaitHandler(r, sig).received == sig
    ensures WaitHandler(WaitHandler(r, sig), 0).received == WaitHandler(r, sig).received
    ensures WaitHandler(WaitHandler(r, sig), 0).sending == WaitHandler(r, sig).sending
  {
    var t := Propagated(WaitHandler(r, SIGUSR2));
    assert t == r.(received := 0);
    ReceivedIsPast(r, t, sig, n);
  }

  lemma {:induction false} ReceivedIsPast(r: Ratchet, t: Ratchet, sig: int, n: nat)
    requires t == r.(received := 0)
    ensures Sent(t, sig, n) == Sent(r, sig, n)
    decreases n
  {
    if n > 0 {
      var h, k := WaitHandler(r, sig), WaitHandler(t, sig);
      assert Propagated(k) == Propagated(h).(received := 0);
      ReceivedIsPast(Propagated(h), Propagated(k), sig, n - 1);
    }
  }
}
