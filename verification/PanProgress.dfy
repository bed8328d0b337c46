/** The scheduler ends: a finite budget is spent exactly, and the orphan loop runs through the signal ratchet. */
module PanProgress {
  import opened Counting
  import opened Signals
  import opened PanModel
  import opened PanInvariant
  import Orphans
  import Zoo

  // ------------------------------------------------------------ a finite budget

  /** An event of the main loop when no signal arrives: wait() then returns a child if there is one. Other programs go on. */
  predicate Quiet(cfg: Config, s: Pan, e: Event) {
    Enabled(cfg, s, e) &&
    match e
    case Attempt(_, _) => true
    case Settle(_, _) => true
    case Reap(_, wait) => wait.Child? <==> s.numActive > 0
    case Foreign(_) => true
    case _ => false
  }

  ghost predicate QuietRun(cfg: Config, s: Pan, events: seq<Event>)
    decreases |events|
  {
    events == [] ||
    (WellFormed(cfg) && Shape(cfg, s) && Quiet(cfg, s, events[0]) && QuietRun(cfg, Next(cfg, s, events[0]), events[1..]))
  }

  ghost function QuietAfter(cfg: Config, s: Pan, events: seq<Event>): Pan
    requires QuietRun(cfg, s, events)
    decreases |events|
  {
    if events == [] then s else QuietAfter(cfg, Next(cfg, s, events[0]), events[1..])
  }

  /** Outside sequential mode a child that does not start leaves the budget as it is. */
  predicate Fails(cfg: Config, e: Event) {
    !cfg.sequential && e.Attempt? && e.outcome.Failed?
  }

  /** The number of such attempts. */
  function Failures(cfg: Config, events: seq<Event>): nat {
    if events == [] then 0 else (if Fails(cfg, events[0]) then 1 else 0) + Failures(cfg, events[1..])
  }

  /** The number of events that are another program's. */
  function Foreigns(events: seq<Event>): nat {
    if events == [] then 0 else (if events[0].Foreign? then 1 else 0) + Foreigns(events[1..])
  }

  /** With brakes and restart off, the attempts that are in `total` are split between those made and those left. */
  predicate Budget(cfg: Config, s: Pan, total: nat) {
    && !cfg.hasBrakes && !s.forkInRoad && cfg.keepActive >= 1
    && s.ratchet.received == 0 && s.goIdle == 0
    && s.starts >= 0 && s.starts + |s.attempts| == total
    && (s.stop > 0 ==> s.starts == 0)
    && (s.phase.Reaping? ==> (s.starts == 0 && s.stop > 0) || s.numActive >= cfg.keepActive)
    && (s.phase.Scheduling? || s.phase.Reaping? || s.phase.Draining?)
    && (s.phase.Draining? ==> s.stop > 0 && s.numActive == 0)
  }

  /** 2 * starts + num_active, refined by the place in the loop. */
  function Measure(s: Pan): int {
    if s.phase.Draining? then 0
    else 2 * (2 * s.starts + s.numActive) + (if s.phase.Scheduling? then 2 else 1)
  }

  lemma {:induction false} AttemptSpends(cfg: Config, s: Pan, e: Event, total: nat)
    requires Inv(cfg, s) && Budget(cfg, s, total) && Quiet(cfg, s, e) && e.Attempt?
    ensures if Fails(cfg, e) then Budget(cfg, Next(cfg, s, e), total + 1) && Measure(Next(cfg, s, e)) == Measure(s)
            else Budget(cfg, Next(cfg, s, e), total) && Measure(Next(cfg, s, e)) < Measure(s)
  {
    hide Zoo.Holds, Zoo.ApplyBytes, WaitHandler, Own;
    FreeSlotExists(cfg, s);
  }

  lemma {:induction false} SettleSpends(cfg: Config, s: Pan, e: Event, total: nat)
    requires Shape(cfg, s) && WellFormed(cfg) && Budget(cfg, s, total) && Quiet(cfg, s, e) && e.Settle?
    ensures Budget(cfg, Next(cfg, s, e), total) && Measure(Next(cfg, s, e)) < Measure(s)
  {
    hide Zoo.ApplyBytes, WaitHandler, Propagate;
  }

  lemma {:induction false} CheckPidsControl(cfg: Config, s: Pan, wait: Wait)
    requires Inv(cfg, s) && s.phase.Reaping?
    requires wait.Child? ==> 0 < wait.pid && wait.pid in Pgrps(s.running)
    ensures var t := CheckPids(cfg, s, wait).0;
      && t.phase.Reaping? && t.numActive == s.numActive - (if wait.Child? then 1 else 0)
      && t.ratchet == s.ratchet && t.goIdle == s.goIdle && t.stop == s.stop && t.starts == s.starts
      && t.attempts == s.attempts && t.forkInRoad == s.forkInRoad
  {
    hide Zoo.Holds, Zoo.ApplyBytes, Zoo.Finds, Own, Core;
    CoreFacts(cfg, s);
    if wait.Child? {
      var i := ReapedSlot(s, wait.pid);
      ClearLedger(cfg, s, i);
    }
  }

  lemma {:induction false} ReapSpends(cfg: Config, s: Pan, e: Event, total: nat)
    requires Inv(cfg, s) && Budget(cfg, s, total) && Quiet(cfg, s, e) && e.Reap?
    ensures Budget(cfg, Next(cfg, s, e), total) && Measure(Next(cfg, s, e)) < Measure(s)
  {
    hide Zoo.Holds, Zoo.ApplyBytes, Zoo.Finds, Own, Core, Ledger, CheckPids, WaitHandler, Orphans.CheckSlots, Orphans.CheckZoo;
    CoreFacts(cfg, s);
    var t := CheckOrphans(s, e.dead, 0);
    CheckOrphansKeeps(cfg, s, e.dead, 0);
    CheckOrphansCore(cfg, s, e.dead);
    CheckPidsControl(cfg, t, e.wait);
    assert Count(s.running, InUse) >= 0;
  }

  lemma {:induction false} ForeignSpendsNothing(cfg: Config, s: Pan, e: Event, total: nat)
    requires WellFormed(cfg) && Shape(cfg, s) && Budget(cfg, s, total) && e.Foreign?
    ensures Budget(cfg, Next(cfg, s, e), total) && Measure(Next(cfg, s, e)) == Measure(s)
  {
  }

  /** An event that leaves the measure as it is. */
  function Extra(cfg: Config, e: Event): nat {
    if Fails(cfg, e) || e.Foreign? then 1 else 0
  }

  lemma {:induction false} QuietStep(cfg: Config, s: Pan, e: Event, total: nat)
    requires Inv(cfg, s) && Budget(cfg, s, total) && Quiet(cfg, s, e)
    ensures Inv(cfg, Next(cfg, s, e))
    ensures Budget(cfg, Next(cfg, s, e), total + if Fails(cfg, e) then 1 else 0)
    ensures Measure(Next(cfg, s, e)) + 1 <= Measure(s) + Extra(cfg, e)
  {
    hide Ledger, Next, Budget, Measure;
    StepInv(cfg, s, e);
    CoreFacts(cfg, s);
    match e
    case Attempt(_, _) => AttemptSpends(cfg, s, e, total);
    case Settle(_, _) => SettleSpends(cfg, s, e, total);
    case Reap(_, _) => ReapSpends(cfg, s, e, total);
    case Foreign(_) => ForeignSpendsNothing(cfg, s, e, total);
  }

  /** Every event of pan's spends of the measure, but for the failures, which add to the attempts instead. */
  lemma {:induction false} QuietRunSpends(cfg: Config, s: Pan, events: seq<Event>, total: nat)
    requires Inv(cfg, s) && Budget(cfg, s, total) && QuietRun(cfg, s, events)
    ensures var t := QuietAfter(cfg, s, events); var fails := Failures(cfg, events);
      Inv(cfg, t) && Budget(cfg, t, total + fails) && |events| + Measure(t) <= Measure(s) + fails + Foreigns(events)
    decreases |events|
  {
    hide Inv, Budget, Measure, Next, Quiet, Fails;
    if events != [] {
      var fail := if Fails(cfg, events[0]) then 1 else 0;
      QuietStep(cfg, s, events[0], total);
      FailsIsNotForeign(cfg, events[0]);
      QuietRunSpends(cfg, Next(cfg, s, events[0]), events[1..], total + fail);
    }
  }

  lemma {:induction false} FailsIsNotForeign(cfg: Config, e: Event)
    ensures !(Fails(cfg, e) && e.Foreign?)
  {
  }

  /** Until the main loop is left there is always a next event. */
  lemma {:induction false} QuietProgress(cfg: Config, s: Pan, total: nat) returns (e: Event)
    requires Inv(cfg, s) && Budget(cfg, s, total) && !s.phase.Draining?
    ensures Quiet(cfg, s, e)
  {
    hide Ledger;
    if s.phase.Scheduling? {
      e := if CanLaunch(cfg, s) then Attempt(0, Started(1)) else Settle(false, {});
    } else if s.numActive > 0 {
      CountZero(s.running, InUse);
      var i :| 0 <= i < |s.running| && InUse(s.running[i]);
      assert Pgrps(s.running)[i] == s.running[i].pgrp;
      e := Reap({}, Child(s.running[i].pgrp, Exited(0), false));
    } else {
      e := Reap({}, NoChild);
    }
  }

  /** With keep_active 0, which the option parser accepts, nothing is ever started and the loop goes on. */
  predicate Idle(cfg: Config, s: Pan) {
    && cfg.keepActive == 0 && s.starts > 0 && s.stop == 0 && s.numActive == 0 && s.attempts == [] && !s.forkInRoad
    && s.ratchet.received == 0 && s.goIdle == 0 && (s.phase.Scheduling? || s.phase.Reaping?)
  }

  lemma {:induction false} IdleStep(cfg: Config, s: Pan, e: Event)
    requires WellFormed(cfg) && Shape(cfg, s) && Idle(cfg, s) && Quiet(cfg, s, e)
    ensures Idle(cfg, Next(cfg, s, e))
  {
    hide Zoo.ApplyBytes, WaitHandler, Propagate, Orphans.CheckSlots, Orphans.CheckZoo;
  }

  lemma {:induction false} IdleForever(cfg: Config, s: Pan, events: seq<Event>)
    requires Idle(cfg, s) && QuietRun(cfg, s, events)
    ensures Idle(cfg, QuietAfter(cfg, s, events))
    decreases |events|
  {
    hide Idle, Next, Quiet;
    if events != [] {
      IdleStep(cfg, s, events[0]);
      IdleForever(cfg, Next(cfg, s, events[0]), events[1..]);
    }
  }

  lemma {:induction false} IdleProgress(cfg: Config, s: Pan) returns (e: Event)
    requires WellFormed(cfg) && Shape(cfg, s) && Idle(cfg, s)
    ensures Quiet(cfg, s, e)
  {
    e := if s.phase.Scheduling? then Settle(false, {}) else Reap({}, NoChild);
  }

  /** What a budget comes to: every started child reaped, and S attempts made besides the failures, so exactly S attempts if
      and only if there was no failure. */
  predicate Spent(cfg: Config, t: Pan, total: nat, events: seq<Event>) {
    && |t.attempts| == total + Failures(cfg, events)
    && (|t.attempts| == total <==> forall i :: 0 <= i < |events| ==> !Fails(cfg, events[i]))
    && t.numActive == 0 && forall i :: 0 <= i < |t.running| ==> !InUse(t.running[i])
  }

  /** Without signals, brakes and restart, and with a budget of S >= 1: no run is stuck before the main loop ends. It ends
      only if keep_active is not 0, and then within 4S + 2 events of pan's own besides the failures, with the budget
      spent. */
  lemma {:induction false} BudgetIsSpentExactly(cfg: Config, total: nat, file: string, others: multiset<int>, events: seq<Event>)
    requires WellFormed(cfg) && !cfg.hasBrakes && total >= 1 && Zoo.Holds(file, others)
    requires QuietRun(cfg, Init(cfg, total, false, file, others), events)
    ensures cfg.keepActive >= 1 ==> |events| <= 4 * total + 2 + Failures(cfg, events) + Foreigns(events)
    ensures var t := QuietAfter(cfg, Init(cfg, total, false, file, others), events);
      if t.phase.Draining? then cfg.keepActive >= 1 && Spent(cfg, t, total, events)
      else exists e :: Quiet(cfg, t, e)
  {
    hide Zoo.Holds, Ledger, QuietRun, QuietAfter, Quiet, Fails, Init;
    var s := Init(cfg, total, false, file, others);
    InitInv(cfg, total, false, file, others);
    StartOfBudget(cfg, total, file, others);
    if cfg.keepActive == 0 {
      IdleForever(cfg, s, events);
      RunShape(cfg, s, events);
      var e := IdleProgress(cfg, QuietAfter(cfg, s, events));
    } else {
      QuietRunSpends(cfg, s, events, total);
      var t := QuietAfter(cfg, s, events);
      CountZero(t.running, InUse);
      NoFailures(cfg, events);
      if !t.phase.Draining? { var e := QuietProgress(cfg, t, total + Failures(cfg, events)); }
    }
  }

  lemma {:induction false} StartOfBudget(cfg: Config, total: nat, file: string, others: multiset<int>)
    requires !cfg.hasBrakes && total >= 1
    ensures var s := Init(cfg, total, false, file, others);
      if cfg.keepActive == 0 then Idle(cfg, s) else Budget(cfg, s, total) && Measure(s) == 4 * total + 2
  {
    hide Zoo.ApplyBytes, MarkSpaces, ClearSpaces, SpacesMissed;
  }

  lemma {:induction false} RunShape(cfg: Config, s: Pan, events: seq<Event>)
    requires Inv(cfg, s) && QuietRun(cfg, s, events)
    ensures Shape(cfg, QuietAfter(cfg, s, events))
    decreases |events|
  {
    hide Ledger, Next, Enabled;
    if events != [] {
      StepInv(cfg, s, events[0]);
      RunShape(cfg, Next(cfg, s, events[0]), events[1..]);
    }
  }

  /** The failure that makes the difference: outside sequential mode a first start that fails leaves all but the attempts as
      it was, the budget too. */
  lemma {:induction false} FailedStartCostsNothing(cfg: Config, total: nat, file: string, others: multiset<int>, choice: nat)
    requires WellFormed(cfg) && cfg.keepActive >= 1 && !cfg.sequential && total >= 1
    ensures var s := Init(cfg, total, false, file, others); var e := Attempt(choice, Failed);
      && Quiet(cfg, s, e) && Fails(cfg, e) && Shape(cfg, s)
      && Next(cfg, s, e) == s.(c := choice % |cfg.coll|, attempts := [choice % |cfg.coll|])
  {
    hide Zoo.ApplyBytes, MarkSpaces, ClearSpaces;
    var s := Init(cfg, total, false, file, others);
    assert FirstSlot(s.running, 0) == 0;
  }

  lemma {:induction false} NoFailures(cfg: Config, events: seq<Event>)
    ensures Failures(cfg, events) == 0 <==> forall i :: 0 <= i < |events| ==> !Fails(cfg, events[i])
  {
    hide Fails;
    if events != [] {
      NoFailures(cfg, events[1..]);
      assert forall i :: 0 < i < |events| ==> events[1..][i - 1] == events[i];
    }
  }

  lemma {:induction false} SequentialNeverFails(cfg: Config, events: seq<Event>)
    requires cfg.sequential
    ensures Failures(cfg, events) == 0
  {
    NoFailures(cfg, events);
  }

  /** What sequential mode is for: with no number of starts asked for, a quiet run through the main loop attempts every
      command of the file exactly once, in the order of the file. */
  lemma {:induction false} EachCommandOnce(cfg: Config, file: string, others: multiset<int>, events: seq<Event>)
    requires WellFormed(cfg) && !cfg.hasBrakes && cfg.sequential && Zoo.Holds(file, others)
    requires QuietRun(cfg, Init(cfg, InitialStarts(false, -1, cfg), false, file, others), events)
    requires QuietAfter(cfg, Init(cfg, InitialStarts(false, -1, cfg), false, file, others), events).phase.Draining?
    ensures QuietAfter(cfg, Init(cfg, InitialStarts(false, -1, cfg), false, file, others), events).attempts == seq(|cfg.coll|, k => k)
  {
    hide Zoo.Holds, Ledger, QuietRun, QuietAfter, Quiet;
    var total := |cfg.coll|;
    var s := Init(cfg, total, false, file, others);
    InitInv(cfg, total, false, file, others);
    BudgetIsSpentExactly(cfg, total, file, others, events);
    StartOfBudget(cfg, total, file, others);
    QuietRunSpends(cfg, s, events, total);
    SequentialNeverFails(cfg, events);
    var t := QuietAfter(cfg, s, events);
    forall k | 0 <= k < total ensures t.attempts[k] == k { SmallMod(k, total); }
  }

  lemma {:induction false} SmallMod(k: nat, n: nat)
    requires k < n
    ensures k % n == k
  {
  }

  // ---------------------------------------------------------------- after a stop

  /** An event between the decision to stop and the end of the main loop, when no signal arrives any more. */
  predicate Winding(cfg: Config, s: Pan, e: Event) {
    Quiet(cfg, s, e) && (e.Settle? || e.Reap?)
  }

  ghost predicate WindingRun(cfg: Config, s: Pan, events: seq<Event>)
    decreases |events|
  {
    events == [] ||
    (WellFormed(cfg) && Shape(cfg, s) && Winding(cfg, s, events[0]) && WindingRun(cfg, Next(cfg, s, events[0]), events[1..]))
  }

  ghost function WindingAfter(cfg: Config, s: Pan, events: seq<Event>): Pan
    requires WindingRun(cfg, s, events)
    decreases |events|
  {
    if events == [] then s else WindingAfter(cfg, Next(cfg, s, events[0]), events[1..])
  }

  /** The children that wait() returns in a run. */
  function Reaped(events: seq<Event>): nat {
    if events == [] then 0 else (if events[0].Reap? && events[0].wait.Child? then 1 else 0) + Reaped(events[1..])
  }

  /** How many events a stopped scheduler has before it: two for each child, or for the last look if there is none. */
  function Ahead(s: Pan): int {
    if s.phase.Draining? then 0
    else (if s.numActive == 0 then 2 else 2 * s.numActive) - (if s.phase.Reaping? then 1 else 0)
  }

  predicate Stopped(s: Pan) {
    s.stop > 0 && s.numActive >= 0 && (s.phase.Scheduling? || s.phase.Reaping? || (s.phase.Draining? && s.numActive == 0))
  }

  lemma {:induction false} WindingSettle(cfg: Config, s: Pan, e: Event)
    requires WellFormed(cfg) && Shape(cfg, s) && Stopped(s) && Winding(cfg, s, e) && e.Settle?
    ensures var t := Next(cfg, s, e); Stopped(t) && t.numActive == s.numActive && Ahead(t) + 1 == Ahead(s)
  {
    hide Zoo.ApplyBytes, WaitHandler, Orphans.CheckSlots, Orphans.CheckZoo;
  }

  lemma {:induction false} WindingReap(cfg: Config, s: Pan, e: Event)
    requires Inv(cfg, s) && Stopped(s) && Winding(cfg, s, e) && e.Reap?
    ensures var t := Next(cfg, s, e);
      && Stopped(t) && t.numActive + (if e.wait.Child? then 1 else 0) == s.numActive && Ahead(t) + 1 == Ahead(s)
  {
    hide Zoo.Holds, Zoo.ApplyBytes, Zoo.Finds, Own, Core, Ledger, CheckPids, WaitHandler, Orphans.CheckSlots, Orphans.CheckZoo;
    CoreFacts(cfg, s);
    var t := CheckOrphans(s, e.dead, 0);
    CheckOrphansKeeps(cfg, s, e.dead, 0);
    CheckOrphansCore(cfg, s, e.dead);
    CheckPidsControl(cfg, t, e.wait);
  }

  lemma {:induction false} WindingRunEnds(cfg: Config, s: Pan, events: seq<Event>)
    requires Inv(cfg, s) && Stopped(s) && WindingRun(cfg, s, events)
    ensures var t := WindingAfter(cfg, s, events);
      Inv(cfg, t) && Stopped(t) && Reaped(events) + t.numActive == s.numActive && |events| + Ahead(t) == Ahead(s)
    decreases |events|
  {
    hide Ledger, Stopped, Next, Ahead, Enabled;
    if events != [] {
      StepInv(cfg, s, events[0]);
      if events[0].Settle? { WindingSettle(cfg, s, events[0]); } else { WindingReap(cfg, s, events[0]); }
      WindingRunEnds(cfg, Next(cfg, s, events[0]), events[1..]);
    }
  }

  /** From every reachable state with stop set, with brakes and restart on or off and whatever signal is still pending, the
      main loop ends after exactly num_active reaps, two events for each, and no run before that is stuck. */
  lemma {:induction false} StopEnds(cfg: Config, s: Pan, events: seq<Event>)
    requires Inv(cfg, s) && s.stop > 0 && (s.phase.Scheduling? || s.phase.Reaping?) && WindingRun(cfg, s, events)
    ensures var t := WindingAfter(cfg, s, events);
      if t.phase.Draining? then Reaped(events) == s.numActive && |events| == Ahead(s)
      else |events| < Ahead(s) && exists e :: Winding(cfg, t, e)
  {
    hide Ledger, Winding;
    assert Stopped(s) by { assert Count(s.running, InUse) >= 0; }
    WindingRunEnds(cfg, s, events);
    var t := WindingAfter(cfg, s, events);
    if !t.phase.Draining? { var e := WindingProgress(cfg, t); }
  }

  lemma {:induction false} WindingProgress(cfg: Config, s: Pan) returns (e: Event)
    requires Core(cfg, s) && Stopped(s) && !s.phase.Draining?
    ensures Winding(cfg, s, e)
  {
    if s.phase.Scheduling? {
      e := Settle(false, {});
    } else if s.numActive > 0 {
      CountZero(s.running, InUse);
      var i :| 0 <= i < |s.running| && InUse(s.running[i]);
      assert Pgrps(s.running)[i] == s.running[i].pgrp;
      e := Reap({}, Child(s.running[i].pgrp, Exited(0), false));
    } else {
      e := Reap({}, NoChild);
    }
  }

  // -------------------------------------------------------------- the orphan loop

  /** The signal that one pass of the orphan loop sends to every orphaned group. */
  function DrainSends(s: Pan): int {
    (if s.ratchet.received == 0 then WaitHandler(s.ratchet, SIGINT) else s.ratchet).sending
  }

  /** The k-th pass after a reset, with no signal in between, sends what the k-th SIGINT round does. */
  lemma {:induction false} PassSends(cfg: Config, s: Pan, dead: set<int>, k: nat)
    requires WellFormed(cfg) && Shape(cfg, s)
    requires s.ratchet.received == 0 && s.ratchet.sending == 0 && s.ratchet.lastSent == LastBefore(SIGINT, k)
    ensures DrainSends(s) == Round(SIGINT, k)
    ensures var r := Next(cfg, s, Drain(dead)).ratchet;
      r.received == 0 && r.sending == 0 && r.lastSent == LastBefore(SIGINT, k + 1)
  {
    hide WellFormed, Shape, Round, LastBefore, WaitHandler, Zoo.ApplyBytes;
    OneRound(s.ratchet, SIGINT, k);
  }

  /** Passes of the orphan loop between which no signal arrives, where SIGKILL empties every group by the next pass. */
  ghost predicate DrainRun(cfg: Config, s: Pan, passes: seq<set<int>>, killed: bool)
    decreases |passes|
  {
    passes == [] || (
      && WellFormed(cfg) && Shape(cfg, s) && Enabled(cfg, s, Drain(passes[0]))
      && (killed ==> forall p :: p in s.orphans && p != 0 ==> p in passes[0])
      && DrainRun(cfg, Next(cfg, s, Drain(passes[0])), passes[1..], killed || DrainSends(s) == SIGKILL))
  }

  lemma {:induction false} PassAfterKill(cfg: Config, s: Pan, dead: set<int>)
    requires WellFormed(cfg) && Shape(cfg, s) && forall p :: p in s.orphans && p != 0 ==> p in dead
    ensures !HasOrphans(Propagate(s, dead))
  {
    hide Zoo.ApplyBytes;
  }

  lemma {:induction false} KilledEnds(cfg: Config, s: Pan, passes: seq<set<int>>)
    requires DrainRun(cfg, s, passes, true)
    ensures |passes| <= 1
  {
    hide Propagate, WaitHandler, HasOrphans;
    if |passes| >= 2 {
      PassAfterKill(cfg, if s.ratchet.received == 0 then s.(ratchet := WaitHandler(s.ratchet, SIGINT)) else s, passes[0]);
    }
  }

  lemma {:induction false} DrainBound(cfg: Config, s: Pan, passes: seq<set<int>>)
    requires s.ratchet.received == 0 && s.ratchet.sending == 0 && DrainRun(cfg, s, passes, false)
    ensures |passes| <= RoundsToKill(s.ratchet.lastSent) + 1
    decreases |passes|
  {
    if passes != [] {
      var t := Next(cfg, s, Drain(passes[0]));
      assert t.ratchet == Propagated(WaitHandler(s.ratchet, SIGINT));
      if DrainSends(s) == SIGKILL {
        KilledEnds(cfg, t, passes[1..]);
      } else {
        DrainBound(cfg, t, passes[1..]);
      }
    }
  }

  /** From every reachable state the final orphan loop ends within seven passes, six if no signal is pending. */
  lemma {:induction false} OrphanLoopEnds(cfg: Config, s: Pan, passes: seq<set<int>>)
    requires Core(cfg, s) && s.phase.Draining? && DrainRun(cfg, s, passes, false)
    ensures |passes| <= if s.ratchet.received == 0 then 6 else 7
  {
    if s.ratchet.received == 0 {
      DrainBound(cfg, s, passes);
    } else if passes != [] {
      var t := Next(cfg, s, Drain(passes[0]));
      assert t.ratchet == Propagated(s.ratchet);
      if DrainSends(s) == SIGKILL {
        KilledEnds(cfg, t, passes[1..]);
      } else {
        DrainBound(cfg, t, passes[1..]);
      }
    }
  }
}
