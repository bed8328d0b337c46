/** What makes the scheduler stop launching, and what lets it go on: a signal, the end of its budget, a stop file, and with
    brakes a child that ends in error. */
module PanControl {
  import opened Counting
  import opened Signals
  import opened PanModel
  import opened PanInvariant
  import Orphans
  import PanProgress
  import Zoo

  // ------------------------------------------------------------- stopping and idling

  /** The budget is spent, or the stop file of an endless run has been found. */
  predicate Finished(s: Pan, stopFile: bool) { s.starts == 0 || (s.starts == -1 && stopFile) }

  /** With "fork in the road" a signal only interrupts the launching, unless it is SIGUSR1, which also takes that option back. */
  predicate Interrupts(s: Pan) { s.ratchet.received != 0 && s.forkInRoad && s.ratchet.received != SIGUSR1 }

  lemma {:induction false} PropagateOnly(s: Pan, dead: set<int>)
    ensures var t := Propagate(s, dead);
      && t.stop == s.stop && t.goIdle == s.goIdle && t.forkInRoad == s.forkInRoad && t.phase == s.phase
      && t.attempts == s.attempts && t.numActive == s.numActive && t.starts == s.starts && t.ratchet == Propagated(s.ratchet)
  {
  }

  lemma {:induction false} SignalDecides(s: Pan, dead: set<int>)
    ensures var t := SettleSignal(s, dead);
      && (t.stop > 0 <==> s.stop > 0 || (s.ratchet.received != 0 && !Interrupts(s)))
      && (t.goIdle > 0 <==> s.goIdle > 0 || Interrupts(s))
      && (t.forkInRoad <==> s.forkInRoad && s.ratchet.received != SIGUSR1)
      && t.ratchet.received == 0
      && t.attempts == s.attempts && t.numActive == s.numActive && t.starts == s.starts
  {
    PropagateOnly(s, dead);
    PropagateOnly(s.(forkInRoad := false), dead);
    hide Propagate;
  }

  /** The loop comes to stop for good exactly for these reasons, and to idle exactly for that one. */
  lemma {:induction false} SettleDecides(cfg: Config, s: Pan, stopFile: bool, dead: set<int>)
    requires WellFormed(cfg) && Shape(cfg, s) && Enabled(cfg, s, Settle(stopFile, dead))
    ensures var t := Next(cfg, s, Settle(stopFile, dead));
      && (t.stop > 0 <==> s.stop > 0 || Finished(s, stopFile) || (s.ratchet.received != 0 && !Interrupts(s)))
      && (t.goIdle > 0 <==> s.goIdle > 0 || Interrupts(s))
      && (t.forkInRoad <==> s.forkInRoad && s.ratchet.received != SIGUSR1)
      && t.ratchet.received == 0 && t.phase.Reaping?
      && t.attempts == s.attempts && t.numActive == s.numActive && t.starts == s.starts
  {
    SignalDecides(StopCheck(s, stopFile), dead);
    hide WellFormed, Shape, SettleSignal;
  }

  // ------------------------------------------------------------- which deaths are errors

  /** A child has ended in error unless it exited with 0, or pan had passed a signal on to it and it died of a signal or exited
      with 130. */
  predicate Fault(status: Status, warned: bool) {
    status != Exited(0) && !(warned && (status.Signaled? || status == Exited(130)))
  }

  predicate FaultIn(s: Pan, wait: Wait)
    requires wait.Child? ==> wait.pid in Pgrps(s.running)
  {
    wait.Child? && Fault(wait.status, s.running[SlotOf(s, wait.pid)].stopping)
  }

  function SlotOf(s: Pan, pid: int): (i: nat)
    requires pid in Pgrps(s.running)
    ensures i < |s.running| && i == FirstSlot(s.running, pid) && s.running[i].pgrp == pid
  {
    SlotThere(s, pid);
    FirstSlot(s.running, pid)
  }

  lemma {:induction false} SlotThere(s: Pan, pid: int)
    requires pid in Pgrps(s.running)
    ensures FirstSlot(s.running, pid) < |s.running|
  {
    var k :| 0 <= k < |s.running| && Pgrps(s.running)[k] == pid;
    assert s.running[k].pgrp == pid;
  }

  lemma {:induction false} CheckPidsErrs(cfg: Config, s: Pan, wait: Wait)
    requires Inv(cfg, s) && s.phase.Reaping? && (wait.Child? ==> 0 < wait.pid && wait.pid in Pgrps(s.running))
    ensures WellFormed(cfg) && Shape(cfg, s)
    ensures var (t, err) := CheckPids(cfg, s, wait);
      && (err != 0 <==> FaultIn(s, wait))
      && t.stop == s.stop && t.goIdle == s.goIdle && t.forkInRoad == s.forkInRoad && t.ratchet == s.ratchet && t.phase.Reaping?
      && t.numActive == s.numActive - (if wait.Child? then 1 else 0) && t.attempts == s.attempts && t.starts == s.starts
  {
    if wait.Child? {
      var i := ReapedSlot(s, wait.pid);
      ClearLedger(cfg, s, i);
    }
    hide Zoo.ApplyBytes, Zoo.Finds, Ledger, Zoo.Holds, Own, InOrder, Orphans.MarkSlot;
  }

  lemma {:induction false} AfterCheckDecides(cfg: Config, s: Pan, err: int)
    requires s.phase.Reaping? && s.numActive >= 0
    ensures var t := AfterCheck(cfg, s, err);
      && (t.phase.Draining? <==> s.stop > 0 && s.numActive == 0) && (t.phase.Scheduling? <==> !t.phase.Draining?)
      && (t.goIdle > 0 <==> (s.goIdle > 0 || (err != 0 && s.forkInRoad)) && (s.numActive > 0 || s.stop > 0))
      && t.ratchet.received == (if err != 0 && cfg.hasBrakes then SIGINT else s.ratchet.received)
      && t.stop == s.stop && t.forkInRoad == s.forkInRoad && t.numActive == s.numActive && t.attempts == s.attempts && t.starts == s.starts
      && (s.goIdle > 0 && s.numActive == 0 && s.stop == 0 ==> t.ratchet.lastSent == 0)
  {
  }

  /** check_pids and what follows it. The main loop is left exactly with stop set and no child left; the launching is
      interrupted by an error with "fork in the road" and goes on exactly when no child is left; and with brakes an error, and
      nothing else, comes as a SIGINT. */
  lemma {:induction false} ReapDecides(cfg: Config, s: Pan, dead: set<int>, wait: Wait)
    requires Inv(cfg, s) && Enabled(cfg, s, Reap(dead, wait))
    ensures WellFormed(cfg) && Shape(cfg, s)
    ensures var t := Next(cfg, s, Reap(dead, wait)); var fault := FaultIn(s, wait);
      && (t.phase.Draining? <==> s.stop > 0 && t.numActive == 0) && (t.phase.Scheduling? <==> !t.phase.Draining?)
      && (t.goIdle > 0 <==> (s.goIdle > 0 || (fault && s.forkInRoad)) && (t.numActive > 0 || s.stop > 0))
      && t.ratchet.received == (if fault && cfg.hasBrakes then SIGINT else s.ratchet.received)
      && t.stop == s.stop && t.forkInRoad == s.forkInRoad && t.attempts == s.attempts && t.starts == s.starts
      && t.numActive == s.numActive - (if wait.Child? then 1 else 0)
      && (s.goIdle > 0 && t.numActive == 0 && s.stop == 0 ==> t.ratchet.lastSent == 0)
  {
    CoreFacts(cfg, s);
    CheckOrphansCore(cfg, s, dead);
    CheckOrphansKeeps(cfg, s, dead, 0);
    var u := CheckOrphans(s, dead, 0);
    ReapActive(cfg, u, wait);
    CheckPidsErrs(cfg, u, wait);
    var (v, err) := CheckPids(cfg, u, wait);
    AfterCheckDecides(cfg, v, err);
    hide AfterCheck, CheckPids, Inv, WellFormed, Shape;
  }

  lemma {:induction false} ReapActive(cfg: Config, s: Pan, wait: Wait)
    requires Inv(cfg, s) && s.phase.Reaping? && (wait.Child? ==> 0 < wait.pid && wait.pid in Pgrps(s.running))
    ensures wait.Child? ==> s.numActive >= 1
    ensures s.numActive >= 0
  {
    CountZero(s.running, InUse);
    if wait.Child? { var i := ReapedSlot(s, wait.pid); }
  }

  // ------------------------------------------------------------- no launch meanwhile

  /** Something keeps the launching loop from going on. */
  predicate Held(s: Pan) { s.stop > 0 || s.goIdle > 0 || s.ratchet.received != 0 }

  predicate Looping(s: Pan) { s.phase.Scheduling? || s.phase.Reaping? }

  /** The loop goes on launching after it had been interrupted: no child is left. */
  predicate Resumed(s: Pan) {
    s.phase.Scheduling? && s.numActive == 0 && s.goIdle == 0 && s.stop == 0 && s.ratchet.lastSent == 0
  }

  lemma {:induction false} DeliverHolds(cfg: Config, s: Pan, sig: int)
    requires WellFormed(cfg) && Shape(cfg, s) && Enabled(cfg, s, Deliver(sig))
    ensures var t := Next(cfg, s, Deliver(sig));
      && t.ratchet.received == sig != 0 && t.phase == s.phase && t.attempts == s.attempts
      && t.stop == s.stop && t.goIdle == s.goIdle && t.forkInRoad == s.forkInRoad
  {
  }

  lemma {:induction false} HeldStep(cfg: Config, s: Pan, e: Event)
    requires Inv(cfg, s) && Held(s) && Looping(s) && Enabled(cfg, s, e)
    ensures WellFormed(cfg) && Shape(cfg, s)
    ensures var t := Next(cfg, s, e);
      && t.attempts == s.attempts
      && (Resumed(t) || (Held(t) && Looping(t)) || (t.phase.Draining? && t.numActive == 0 && t.stop > 0))
  {
    CoreFacts(cfg, s);
    match e
    case Deliver(sig) => DeliverHolds(cfg, s, sig);
    case Settle(stopFile, dead) =>
      SettleDecides(cfg, s, stopFile, dead);
    case Reap(dead, wait) =>
      ReapDecides(cfg, s, dead, wait);
      ActiveAfter(cfg, s, e);
    case Foreign(op) =>
    case _ =>
  }

  lemma {:induction false} ActiveAfter(cfg: Config, s: Pan, e: Event)
    requires Inv(cfg, s) && Enabled(cfg, s, e)
    ensures WellFormed(cfg) && Shape(cfg, s) && Next(cfg, s, e).numActive >= 0
  {
    StepInv(cfg, s, e);
    hide Next;
  }

  lemma {:induction false} Prefix(cfg: Config, s: Pan, events: seq<Event>, k: nat)
    requires Runs(cfg, s, events) && events != [] && k < |events|
    requires Runs(cfg, Next(cfg, s, events[0]), events[1..][..k])
    ensures Runs(cfg, s, events[..k + 1])
    ensures After(cfg, s, events[..k + 1]) == After(cfg, Next(cfg, s, events[0]), events[1..][..k])
  {
    hide Next, Enabled;
    assert events[..k + 1][1..] == events[1..][..k];
  }

  /** Nothing is launched from there on until the launching is resumed, and so until no child is left. */
  lemma {:induction false} NoLaunchWhileHeld(cfg: Config, s: Pan, events: seq<Event>)
    requires Inv(cfg, s) && Held(s) && Looping(s) && Runs(cfg, s, events)
    ensures After(cfg, s, events).attempts == s.attempts
         || exists k :: 0 <= k <= |events| && Runs(cfg, s, events[..k])
                        && Resumed(After(cfg, s, events[..k])) && After(cfg, s, events[..k]).attempts == s.attempts
    decreases |events|
  {
    hide Inv, Next, Enabled, Held, Resumed;
    if events != [] {
      var t := Next(cfg, s, events[0]);
      HeldStep(cfg, s, events[0]);
      StepInv(cfg, s, events[0]);
      if Resumed(t) {
        assert events[1..][..0] == [];
        Prefix(cfg, s, events, 0);
      } else if Held(t) && Looping(t) {
        NoLaunchWhileHeld(cfg, t, events[1..]);
        if k :| 0 <= k <= |events[1..]| && Runs(cfg, t, events[1..][..k]) && Resumed(After(cfg, t, events[1..][..k]))
                && After(cfg, t, events[1..][..k]).attempts == t.attempts {
          Prefix(cfg, s, events, k);
        }
      } else {
        NoLaunchAfterStop(cfg, t, events[1..]);
      }
    }
  }

  /** The launching is over for good, or will be at the next turn. */
  predicate Final(s: Pan) { Looping(s) ==> !s.forkInRoad && (s.stop > 0 || s.ratchet.received != 0) }

  lemma {:induction false} FinalStep(cfg: Config, s: Pan, e: Event)
    requires Inv(cfg, s) && Final(s) && Enabled(cfg, s, e)
    ensures WellFormed(cfg) && Shape(cfg, s) && Final(Next(cfg, s, e)) && Next(cfg, s, e).attempts == s.attempts
  {
    CoreFacts(cfg, s);
    match e
    case Deliver(sig) => DeliverHolds(cfg, s, sig);
    case Settle(stopFile, dead) => SettleDecides(cfg, s, stopFile, dead);
    case Reap(dead, wait) => ReapDecides(cfg, s, dead, wait);
    case Drain(dead) => PropagateOnly(if s.ratchet.received == 0 then s.(ratchet := WaitHandler(s.ratchet, SIGINT)) else s, dead);
    case Foreign(op) =>
    case Leave =>
  }

  lemma {:induction false} FinalRun(cfg: Config, s: Pan, events: seq<Event>)
    requires Inv(cfg, s) && Final(s) && Runs(cfg, s, events)
    ensures After(cfg, s, events).attempts == s.attempts
    decreases |events|
  {
    hide Inv, Next, Enabled, Final;
    if events != [] {
      FinalStep(cfg, s, events[0]);
      StepInv(cfg, s, events[0]);
      FinalRun(cfg, Next(cfg, s, events[0]), events[1..]);
    }
  }

  /** Without "fork in the road" a signal ends the launching: whatever comes after it, nothing is launched any more. */
  lemma {:induction false} SignalIsFinal(cfg: Config, s: Pan, sig: int, events: seq<Event>)
    requires Inv(cfg, s) && !s.forkInRoad && Enabled(cfg, s, Deliver(sig))
    requires Runs(cfg, s, [Deliver(sig)] + events)
    ensures After(cfg, s, [Deliver(sig)] + events).attempts == s.attempts
  {
    CoreFacts(cfg, s);
    DeliverHolds(cfg, s, sig);
    StepInv(cfg, s, Deliver(sig));
    var run := [Deliver(sig)] + events;
    assert run[1..] == events;
    hide Inv, Next;
    FinalRun(cfg, Next(cfg, s, Deliver(sig)), events);
  }

  /** So does, with brakes, a child that ends in error. */
  lemma {:induction false} BrakesAreFinal(cfg: Config, s: Pan, dead: set<int>, wait: Wait, events: seq<Event>)
    requires Inv(cfg, s) && !s.forkInRoad && cfg.hasBrakes && Enabled(cfg, s, Reap(dead, wait)) && FaultIn(s, wait)
    requires Runs(cfg, s, [Reap(dead, wait)] + events)
    ensures After(cfg, s, [Reap(dead, wait)] + events).attempts == s.attempts
  {
    ReapDecides(cfg, s, dead, wait);
    StepInv(cfg, s, Reap(dead, wait));
    var run := [Reap(dead, wait)] + events;
    assert run[1..] == events;
    hide Inv, Next, Enabled, FaultIn;
    FinalRun(cfg, Next(cfg, s, Reap(dead, wait)), events);
  }

  // ------------------------------------------------------------- how long it takes

  /** Where a winding run stands: at the end of the main loop after so many reaps and events, or before it, and not stuck. */
  ghost predicate WoundUp(cfg: Config, t: Pan, reaps: int, events: int, active: int, ahead: int) {
    if t.phase.Draining? then reaps == active && events == ahead
    else t.stop > 0 && events < ahead && exists e :: PanProgress.Winding(cfg, t, e)
  }

  lemma {:induction false} StopWindsUp(cfg: Config, s: Pan, events: seq<Event>)
    requires Inv(cfg, s) && s.stop > 0 && s.phase.Reaping? && PanProgress.Stopped(s) && PanProgress.WindingRun(cfg, s, events)
    ensures WoundUp(cfg, PanProgress.WindingAfter(cfg, s, events), PanProgress.Reaped(events), |events|, s.numActive, PanProgress.Ahead(s))
  {
    hide Inv, PanProgress.WindingAfter, PanProgress.Winding, PanProgress.WindingRun;
    PanProgress.StopEnds(cfg, s, events);
    PanProgress.WindingRunEnds(cfg, s, events);
  }

  /** After a signal that stops it, and if none follows, the main loop ends after exactly num_active reaps, two events for each. */
  lemma {:induction false} SignalEnds(cfg: Config, s: Pan, events: seq<Event>)
    requires Inv(cfg, s) && s.phase.Scheduling? && s.ratchet.received != 0 && !Interrupts(s)
    requires events != [] && PanProgress.WindingRun(cfg, s, events)
    ensures WoundUp(cfg, PanProgress.WindingAfter(cfg, s, events), PanProgress.Reaped(events), |events|, s.numActive, PanProgress.Ahead(s))
  {
    hide Inv, Next, Interrupts, PanProgress.Winding, WellFormed, Shape, WoundUp, PanProgress.Ahead;
    FirstSettle(cfg, s, events[0]);
    var t := Next(cfg, s, events[0]);
    StopWindsUp(cfg, t, events[1..]);
    OneEventMore(cfg, PanProgress.WindingAfter(cfg, t, events[1..]), PanProgress.Reaped(events[1..]), |events[1..]|,
                 s.numActive, PanProgress.Ahead(t));
  }

  lemma {:induction false} OneEventMore(cfg: Config, t: Pan, reaps: int, events: int, active: int, ahead: int)
    requires WoundUp(cfg, t, reaps, events, active, ahead)
    ensures WoundUp(cfg, t, reaps, events + 1, active, ahead + 1)
  {
    hide PanProgress.Winding;
  }

  lemma {:induction false} FirstSettle(cfg: Config, s: Pan, e: Event)
    requires Inv(cfg, s) && s.phase.Scheduling? && s.ratchet.received != 0 && !Interrupts(s) && PanProgress.Winding(cfg, s, e)
    ensures WellFormed(cfg) && Shape(cfg, s)
    ensures var t := Next(cfg, s, e);
      && e.Settle? && Inv(cfg, t) && t.stop > 0 && t.phase.Reaping? && t.numActive == s.numActive >= 0 && PanProgress.Stopped(t)
      && PanProgress.Ahead(s) == PanProgress.Ahead(t) + 1
  {
    CoreFacts(cfg, s);
    ActiveAfter(cfg, s, e);
    SettleDecides(cfg, s, e.stopFile, e.dead);
    StepInv(cfg, s, e);
    hide Inv, Next, WellFormed, Shape;
  }

  /** And after one that only interrupts it, the launching is resumed, or the loop ends, exactly when as many children have
      been reaped as were active; until then nothing is launched. */
  lemma {:induction false} IdleEnds(cfg: Config, s: Pan, events: seq<Event>)
    requires Inv(cfg, s) && Looping(s) && (s.goIdle > 0 || s.stop > 0)
    requires PanProgress.WindingRun(cfg, s, events) && |events| <= PanProgress.Ahead(s)
    ensures var t := PanProgress.WindingAfter(cfg, s, events);
      && t.attempts == s.attempts
      && if |events| == PanProgress.Ahead(s)
         then t.numActive == 0 && (t.phase.Draining? || Resumed(t)) && PanProgress.Reaped(events) == s.numActive
         else Looping(t) && (t.goIdle > 0 || t.stop > 0) && |events| + PanProgress.Ahead(t) == PanProgress.Ahead(s)
    decreases |events|
  {
    hide Ledger, Next, Resumed, Enabled;
    if events != [] {
      IdleStep(cfg, s, events[0]);
      StepInv(cfg, s, events[0]);
      var t := Next(cfg, s, events[0]);
      if PanProgress.Ahead(s) == 1 {
        assert events[1..] == [];
      } else {
        IdleEnds(cfg, t, events[1..]);
      }
    } else {
      assert s.numActive >= 0;
    }
  }

  lemma {:induction false} IdleStep(cfg: Config, s: Pan, e: Event)
    requires Inv(cfg, s) && Looping(s) && (s.goIdle > 0 || s.stop > 0) && PanProgress.Winding(cfg, s, e)
    ensures WellFormed(cfg) && Shape(cfg, s)
    ensures var t := Next(cfg, s, e);
      && t.attempts == s.attempts && t.numActive >= 0
      && t.numActive + (if e.Reap? && e.wait.Child? then 1 else 0) == s.numActive
      && if PanProgress.Ahead(s) == 1 then t.numActive == 0 && (t.phase.Draining? || Resumed(t))
         else Looping(t) && (t.goIdle > 0 || t.stop > 0) && 1 + PanProgress.Ahead(t) == PanProgress.Ahead(s)
  {
    CoreFacts(cfg, s);
    ActiveAfter(cfg, s, e);
    if e.Settle? { SettleDecides(cfg, s, e.stopFile, e.dead); } else { ReapDecides(cfg, s, e.dead, e.wait); }
    hide Inv, Next, WellFormed, Shape;
  }

  // ------------------------------------------------------------- who has been warned

  /** The event passes a signal on to the running groups. */
  predicate Sends(s: Pan, e: Event) {
    (e.Settle? && s.ratchet.received != 0 && s.ratchet.received != SIGUSR2) || e.Drain?
  }

  /** A slot is marked as stopping when a signal is passed on, and is not when a child is put into it. */
  predicate Warns(s: Pan, t: Pan, sends: bool, i: nat)
    requires i < |s.running| == |t.running|
  {
    t.running[i].pgrp != 0 ==>
      && (t.running[i].stopping <==> s.running[i].pgrp != 0 && (s.running[i].stopping || sends))
      && (s.running[i].pgrp != 0 ==> t.running[i].pgrp == s.running[i].pgrp && t.running[i].cmd == s.running[i].cmd)
  }

  lemma {:induction false} PropagateWarns(s: Pan, dead: set<int>, i: nat)
    requires i < |s.running|
    ensures |Propagate(s, dead).running| == |s.running| && Warns(s, Propagate(s, dead), true, i)
  {
  }

  lemma {:induction false} SettleWarns(cfg: Config, s: Pan, stopFile: bool, dead: set<int>, i: nat)
    requires WellFormed(cfg) && Shape(cfg, s) && i < |s.running|
    ensures var t := Next(cfg, s, Settle(stopFile, dead));
      |t.running| == |s.running| && Warns(s, t, Sends(s, Settle(stopFile, dead)), i)
  {
    var u := StopCheck(s, stopFile);
    PropagateWarns(if u.ratchet.received == SIGUSR1 then u.(forkInRoad := false) else u, dead, i);
    hide Propagate, WellFormed, Shape;
  }

  lemma {:induction false} CheckPidsWarns(cfg: Config, s: Pan, wait: Wait, i: nat)
    requires Shape(cfg, s) && i < |s.running| && (wait.Child? ==> 0 < wait.pid && wait.pid in Pgrps(s.running))
    ensures var t := CheckPids(cfg, s, wait).0; |t.running| == |s.running| && Warns(s, t, false, i)
  {
    hide Zoo.ApplyBytes, Zoo.Finds, Orphans.MarkSlot, Verdict;
  }

  lemma {:induction false} ReapWarns(cfg: Config, s: Pan, dead: set<int>, wait: Wait, i: nat)
    requires WellFormed(cfg) && Shape(cfg, s) && i < |s.running| && Enabled(cfg, s, Reap(dead, wait))
    ensures var t := Next(cfg, s, Reap(dead, wait)); |t.running| == |s.running| && Warns(s, t, false, i)
  {
    var u := CheckOrphans(s, dead, 0);
    CheckPidsWarns(cfg, u, wait, i);
    AfterCheckRunning(cfg, CheckPids(cfg, u, wait).0, CheckPids(cfg, u, wait).1);
    hide AfterCheck, CheckPids, WellFormed, Orphans.CheckZoo, Orphans.Kills, Orphans.Misses;
  }

  lemma {:induction false} AfterCheckRunning(cfg: Config, s: Pan, err: int)
    ensures AfterCheck(cfg, s, err).running == s.running
  {
  }

  lemma {:induction false} AttemptWarns(cfg: Config, s: Pan, choice: nat, outcome: Outcome, i: nat)
    requires WellFormed(cfg) && Shape(cfg, s) && i < |s.running| && Enabled(cfg, s, Attempt(choice, outcome))
    ensures var t := Next(cfg, s, Attempt(choice, outcome)); |t.running| == |s.running| && Warns(s, t, false, i)
  {
    hide WellFormed, Zoo.ApplyBytes, WaitHandler;
  }

  lemma {:induction false} DrainWarns(cfg: Config, s: Pan, dead: set<int>, i: nat)
    requires WellFormed(cfg) && Shape(cfg, s) && i < |s.running|
    ensures var t := Next(cfg, s, Drain(dead)); |t.running| == |s.running| && Warns(s, t, true, i)
  {
    PropagateWarns(if s.ratchet.received == 0 then s.(ratchet := WaitHandler(s.ratchet, SIGINT)) else s, dead, i);
    hide WellFormed, Shape, Propagate, WaitHandler;
  }

  lemma {:induction false} RestWarns(cfg: Config, s: Pan, e: Event, i: nat)
    requires WellFormed(cfg) && Shape(cfg, s) && i < |s.running| && (e.Deliver? || e.Leave? || e.Foreign?)
    ensures Next(cfg, s, e).running == s.running
  {
    hide WellFormed, Shape, Zoo.ApplyBytes, WaitHandler;
  }

  lemma {:induction false} WarnedStep(cfg: Config, s: Pan, e: Event, i: nat)
    requires Inv(cfg, s) && Enabled(cfg, s, e) && i < |s.running|
    ensures WellFormed(cfg) && Shape(cfg, s)
    ensures var t := Next(cfg, s, e); |t.running| == |s.running| && Warns(s, t, Sends(s, e), i)
  {
    CoreFacts(cfg, s);
    hide Inv, WellFormed, Shape, Next, Enabled;
    match e
    case Attempt(choice, outcome) => AttemptWarns(cfg, s, choice, outcome, i);
    case Settle(stopFile, dead) => SettleWarns(cfg, s, stopFile, dead, i);
    case Reap(dead, wait) => ReapWarns(cfg, s, dead, wait, i);
    case Drain(dead) => DrainWarns(cfg, s, dead, i);
    case _ => RestWarns(cfg, s, e, i);
  }

  /** The child in slot i stays there throughout the run. */
  ghost predicate Stays(cfg: Config, s: Pan, events: seq<Event>, i: nat)
    requires Runs(cfg, s, events)
    decreases |events|
  {
    i < |s.running| && s.running[i].pgrp != 0 && (events == [] || Stays(cfg, Next(cfg, s, events[0]), events[1..], i))
  }

  ghost predicate SendsIn(cfg: Config, s: Pan, events: seq<Event>)
    requires Runs(cfg, s, events)
    decreases |events|
  {
    events != [] && (Sends(s, events[0]) || SendsIn(cfg, Next(cfg, s, events[0]), events[1..]))
  }

  /** Whether a death by a signal is forgiven: exactly if a signal was passed on while the child was in its slot. */
  lemma {:induction false} WarnedExactly(cfg: Config, s: Pan, events: seq<Event>, i: nat)
    requires Inv(cfg, s) && Runs(cfg, s, events) && Stays(cfg, s, events, i)
    ensures var t := After(cfg, s, events);
      && i < |t.running| && t.running[i].pgrp == s.running[i].pgrp
      && (t.running[i].stopping <==> s.running[i].stopping || SendsIn(cfg, s, events))
    decreases |events|
  {
    hide Inv, Next, Enabled, Sends;
    if events != [] {
      WarnedStep(cfg, s, events[0], i);
      StepInv(cfg, s, events[0]);
      WarnedExactly(cfg, Next(cfg, s, events[0]), events[1..], i);
    }
  }

  // ------------------------------------------------------------- the budget

  /** What the options come to: no end if 0 starts are asked for, or none are in a timed run; otherwise one for each command
      in sequential mode and one in the other, or the number given, but never fewer than may be active at once. */
  lemma {:induction false} BudgetGiven(timed: bool, starts: int, cfg: Config)
    requires WellFormed(cfg)
    ensures var b := InitialStarts(timed, starts, cfg);
      && (b < 0 <==> b == -1) && (b == -1 <==> starts == 0 || (timed && starts == -1))
      && (starts > 0 ==> b >= starts && b >= cfg.keepActive && (b == starts || b == cfg.keepActive))
      && (starts == -1 && !timed ==> b == if cfg.sequential then |cfg.coll| else 1)
  {
  }

  /** A budget without end is never spent, so that only a signal, an error with brakes or the stop file ends the launching. */
  lemma {:induction false} EndlessStays(cfg: Config, s: Pan, e: Event)
    requires Inv(cfg, s) && Enabled(cfg, s, e) && s.starts == -1
    ensures WellFormed(cfg) && Shape(cfg, s) && Next(cfg, s, e).starts == -1
  {
    CoreFacts(cfg, s);
    match e
    case Settle(stopFile, dead) => SettleDecides(cfg, s, stopFile, dead);
    case Reap(dead, wait) => ReapDecides(cfg, s, dead, wait);
    case Drain(dead) => DrainStarts(cfg, s, dead);
    case Attempt(choice, outcome) => AttemptStarts(cfg, s, choice, outcome);
    case _ =>
  }

  lemma {:induction false} AttemptStarts(cfg: Config, s: Pan, choice: nat, outcome: Outcome)
    requires WellFormed(cfg) && Shape(cfg, s) && s.starts == -1 && Enabled(cfg, s, Attempt(choice, outcome))
    ensures Next(cfg, s, Attempt(choice, outcome)).starts == -1
  {
    hide WellFormed, Zoo.ApplyBytes, WaitHandler;
  }

  lemma {:induction false} DrainStarts(cfg: Config, s: Pan, dead: set<int>)
    requires WellFormed(cfg) && Shape(cfg, s)
    ensures Next(cfg, s, Drain(dead)).starts == s.starts
  {
    PropagateOnly(if s.ratchet.received == 0 then s.(ratchet := WaitHandler(s.ratchet, SIGINT)) else s, dead);
    hide WellFormed, Shape, Propagate, WaitHandler;
  }

  ghost predicate StopFileIn(events: seq<Event>) {
    exists i :: 0 <= i < |events| && events[i].Settle? && events[i].stopFile
  }

  ghost predicate SignalIn(events: seq<Event>) {
    exists i :: 0 <= i < |events| && events[i].Deliver?
  }

  /** Endless, untouched, and without brakes, or at least not yet interrupted by anything. */
  predicate Untouched(cfg: Config, s: Pan) {
    s.starts == -1 && s.stop == 0 && s.ratchet.received == 0 && Looping(s) && !cfg.hasBrakes
  }

  lemma {:induction false} UntouchedStep(cfg: Config, s: Pan, e: Event)
    requires Inv(cfg, s) && Enabled(cfg, s, e) && Untouched(cfg, s)
    requires !e.Deliver? && !(e.Settle? && e.stopFile)
    ensures WellFormed(cfg) && Shape(cfg, s) && Untouched(cfg, Next(cfg, s, e))
  {
    EndlessStays(cfg, s, e);
    match e
    case Attempt(_, _) => FreeSlotIfAttempt(cfg, s, e);
    case Settle(stopFile, dead) => SettleDecides(cfg, s, stopFile, dead);
    case Reap(dead, wait) => ReapDecides(cfg, s, dead, wait);
    case _ =>
  }

  lemma {:induction false} FreeSlotIfAttempt(cfg: Config, s: Pan, e: Event)
    requires Inv(cfg, s) && Enabled(cfg, s, e) && e.Attempt?
    ensures FirstSlot(s.running, 0) < cfg.keepActive
  {
    FreeSlotExists(cfg, s);
  }

  /** Without end and without brakes the main loop is left only after a signal or the stop file. */
  lemma {:induction false} EndlessRun(cfg: Config, s: Pan, events: seq<Event>)
    requires Inv(cfg, s) && Runs(cfg, s, events) && Untouched(cfg, s)
    ensures Untouched(cfg, After(cfg, s, events)) || StopFileIn(events) || SignalIn(events)
    decreases |events|
  {
    hide Inv, Next, Enabled, Untouched;
    if events != [] && !events[0].Deliver? && !(events[0].Settle? && events[0].stopFile) {
      UntouchedStep(cfg, s, events[0]);
      StepInv(cfg, s, events[0]);
      EndlessRun(cfg, Next(cfg, s, events[0]), events[1..]);
      if StopFileIn(events[1..]) {
        var i :| 0 <= i < |events[1..]| && events[1..][i].Settle? && events[1..][i].stopFile;
        assert events[i + 1] == events[1..][i];
      }
      if SignalIn(events[1..]) {
        var i :| 0 <= i < |events[1..]| && events[1..][i].Deliver?;
        assert events[i + 1] == events[1..][i];
      }
    }
  }
}
