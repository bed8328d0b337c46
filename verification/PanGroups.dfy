/** What becomes of the process groups that pan starts: each is running, orphaned, or has been reported empty, so that pan
    leaves only when all have been. */
module PanGroups {
  import opened Signals
  import opened PanModel
  import opened PanInvariant
  import opened PanControl
  import Orphans
  import PanTexts
  import Zoo

  /** The groups that pan knows. */
  function Known(s: Pan): multiset<int> { Orphans.Groups(Pgrps(s.running)) + Orphans.Groups(s.orphans) }

  function StartedBy(e: Event): multiset<int> {
    if e.Attempt? && e.outcome.Started? then multiset{e.outcome.pid} else multiset{}
  }

  /** The groups reported empty in an event: those orphaned ones that a signal finds empty, or the question that check_pids
      begins with, and that of a dead child if kill says so. */
  function EndedBy(s: Pan, e: Event): multiset<int> {
    match e
    case Settle(_, dead) => if Sends(s, e) then Orphans.Gone(s.orphans, dead) else multiset{}
    case Drain(dead) => Orphans.Gone(s.orphans, dead)
    case Reap(dead, wait) =>
      Orphans.Gone(s.orphans, dead) + if wait.Child? && !wait.survives then multiset{wait.pid} else multiset{}
    case _ => multiset{}
  }

  /** What an event adds to the known groups and takes away. */
  ghost predicate Accounts(s: Pan, t: Pan, e: Event) { Known(t) + EndedBy(s, e) == Known(s) + StartedBy(e) }

  lemma {:induction false} CheckAccounts(s: Pan, dead: set<int>, sig: int)
    ensures Known(CheckOrphans(s, dead, sig)) + Orphans.Gone(s.orphans, dead) == Known(s)
  {
    hide Orphans.Groups, Orphans.CheckSlots, Orphans.Gone;
    Orphans.CheckSplits(s.orphans, dead);
  }

  lemma {:induction false} PropagateAccounts(s: Pan, dead: set<int>)
    ensures Known(Propagate(s, dead)) + Orphans.Gone(s.orphans, dead) == Known(s)
  {
    hide Orphans.Groups, Orphans.CheckSlots, Orphans.Gone;
    CheckAccounts(s, dead, s.ratchet.sending);
    StopSlotsKeep(s.running);
  }

  lemma {:induction false} SettleAccounts(cfg: Config, s: Pan, stopFile: bool, dead: set<int>)
    requires WellFormed(cfg) && Shape(cfg, s)
    ensures Accounts(s, Next(cfg, s, Settle(stopFile, dead)), Settle(stopFile, dead))
  {
    var t := StopCheck(s, stopFile);
    PropagateAccounts(if t.ratchet.received == SIGUSR1 then t.(forkInRoad := false) else t, dead);
    hide WellFormed, Shape, Propagate, Orphans.Groups, Orphans.Gone;
  }

  lemma {:induction false} DrainAccounts(cfg: Config, s: Pan, dead: set<int>)
    requires WellFormed(cfg) && Shape(cfg, s)
    ensures Accounts(s, Next(cfg, s, Drain(dead)), Drain(dead))
  {
    PropagateAccounts(if s.ratchet.received == 0 then s.(ratchet := WaitHandler(s.ratchet, SIGINT)) else s, dead);
    hide WellFormed, Shape, Propagate, WaitHandler, Orphans.Groups, Orphans.Gone;
  }

  lemma {:induction false} FreesAccounts(s: Pan, t: Pan, i: nat)
    requires PanTexts.Frees(s, t, i)
    ensures Known(t) + multiset{s.running[i].pgrp} == Known(s)
  {
    hide Orphans.Groups, Zoo.ApplyBytes;
    PgrpsUpdate(s.running, i, s.running[i].(pgrp := 0));
    Orphans.GroupsUpdate(Pgrps(s.running), i, 0);
  }

  lemma {:induction false} AdoptsAccounts(cfg: Config, s: Pan, t: Pan, pid: int, c: nat)
    requires PanTexts.Adopts(cfg, s, t, pid, c)
    ensures Known(t) == Known(s) + multiset{pid}
  {
    hide Orphans.Groups, Zoo.ApplyBytes;
    Orphans.MarkEffect(s.orphans, pid);
  }

  lemma {:induction false} StartsAccounts(cfg: Config, s: Pan, t: Pan, i: nat, pid: int, c: nat)
    requires PanTexts.Starts(cfg, s, t, i, pid, c)
    ensures Known(t) == Known(s) + multiset{pid}
  {
    hide Orphans.Groups, Zoo.ApplyBytes;
    PgrpsUpdate(s.running, i, Slot(pid, false, c));
    Orphans.GroupsUpdate(Pgrps(s.running), i, pid);
  }

  /** A dead child's group leaves the table, and comes to the list if it lives on. */
  lemma {:induction false} CheckPidsAccounts(cfg: Config, s: Pan, wait: Wait)
    requires Inv(cfg, s) && s.phase.Reaping? && (wait.Child? ==> 0 < wait.pid && wait.pid in Pgrps(s.running))
    ensures WellFormed(cfg) && Shape(cfg, s)
    ensures Known(CheckPids(cfg, s, wait).0) + (if wait.Child? && !wait.survives then multiset{wait.pid} else multiset{}) == Known(s)
  {
    CoreFacts(cfg, s);
    hide Known, CheckPids, PanTexts.Frees, PanTexts.Adopts, WellFormed, Inv;
    if wait.Child? {
      var i := ReapedSlot(s, wait.pid);
      PanTexts.CheckPidsSteps(cfg, s, wait, i);
      var gone := CheckPids(cfg, s, wait.(survives := false)).0;
      FreesAccounts(s, gone, i);
      if wait.survives { AdoptsAccounts(cfg, gone, CheckPids(cfg, s, wait).0, wait.pid, s.running[i].cmd); }
    } else {
      PanTexts.NoChildSame(cfg, s);
    }
  }

  lemma {:induction false} AfterCheckAccounts(cfg: Config, s: Pan, err: int)
    ensures Known(AfterCheck(cfg, s, err)) == Known(s)
  {
  }

  lemma {:induction false} ReapAccounts(cfg: Config, s: Pan, dead: set<int>, wait: Wait)
    requires Inv(cfg, s) && Enabled(cfg, s, Reap(dead, wait))
    ensures WellFormed(cfg) && Shape(cfg, s)
    ensures Accounts(s, Next(cfg, s, Reap(dead, wait)), Reap(dead, wait))
  {
    CoreFacts(cfg, s);
    PanTexts.CheckedInv(cfg, s, dead);
    PanTexts.ReapIs(cfg, s, dead, wait);
    PanTexts.ReapAnswer(cfg, s, dead, wait);
    CheckAccounts(s, dead, 0);
    var t := CheckOrphans(s, dead, 0);
    hide Inv, WellFormed, Shape, Known, AfterCheck, CheckPids, CheckOrphans, Orphans.Gone, Next, Enabled, PanTexts.GivesUp;
    CheckPidsAccounts(cfg, t, wait);
    var r := CheckPids(cfg, t, wait);
    AfterCheckAccounts(cfg, r.0, r.1);
  }

  lemma {:induction false} AttemptAccounts(cfg: Config, s: Pan, choice: nat, outcome: Outcome)
    requires Inv(cfg, s) && Enabled(cfg, s, Attempt(choice, outcome))
    ensures WellFormed(cfg) && Shape(cfg, s)
    ensures Accounts(s, Next(cfg, s, Attempt(choice, outcome)), Attempt(choice, outcome))
  {
    CoreFacts(cfg, s);
    PanTexts.AttemptIs(cfg, s, choice, outcome);
    var t := Next(cfg, s, Attempt(choice, outcome));
    if outcome.Started? {
      StartsAccounts(cfg, s, t, FirstSlot(s.running, 0), outcome.pid, if cfg.sequential then s.c else choice % |cfg.coll|);
    } else {
      FailedAccounts(cfg, s, choice);
    }
  }

  lemma {:induction false} FailedAccounts(cfg: Config, s: Pan, choice: nat)
    requires WellFormed(cfg) && Shape(cfg, s)
    ensures Known(Next(cfg, s, Attempt(choice, Failed))) == Known(s)
  {
    hide WellFormed, Shape, WaitHandler;
  }

  lemma {:induction false} RestAccounts(cfg: Config, s: Pan, e: Event)
    requires WellFormed(cfg) && Shape(cfg, s) && (e.Deliver? || e.Leave? || e.Foreign?)
    ensures Accounts(s, Next(cfg, s, e), e)
  {
    hide WellFormed, Shape, Zoo.ApplyBytes, Zoo.Finds, WaitHandler;
  }

  lemma {:induction false} StepAccounts(cfg: Config, s: Pan, e: Event)
    requires Inv(cfg, s) && Enabled(cfg, s, e)
    ensures WellFormed(cfg) && Shape(cfg, s)
    ensures Accounts(s, Next(cfg, s, e), e)
  {
    CoreFacts(cfg, s);
    hide Inv, WellFormed, Shape, Next, Enabled, Accounts;
    match e
    case Attempt(choice, outcome) => AttemptAccounts(cfg, s, choice, outcome);
    case Settle(stopFile, dead) => SettleAccounts(cfg, s, stopFile, dead);
    case Reap(dead, wait) => ReapAccounts(cfg, s, dead, wait);
    case Drain(dead) => DrainAccounts(cfg, s, dead);
    case _ => RestAccounts(cfg, s, e);
  }

  // ------------------------------------------------------------------ whole runs

  function Started(events: seq<Event>): multiset<int> {
    if events == [] then multiset{} else StartedBy(events[0]) + Started(events[1..])
  }

  ghost function Ended(cfg: Config, s: Pan, events: seq<Event>): multiset<int>
    requires Runs(cfg, s, events)
    decreases |events|
  {
    if events == [] then multiset{} else EndedBy(s, events[0]) + Ended(cfg, Next(cfg, s, events[0]), events[1..])
  }

  lemma {:induction false} RunAccounts(cfg: Config, s: Pan, events: seq<Event>)
    requires Inv(cfg, s) && Runs(cfg, s, events)
    ensures Known(After(cfg, s, events)) + Ended(cfg, s, events) == Known(s) + Started(events)
    decreases |events|
  {
    hide Inv, Next, Enabled, Known, EndedBy, StartedBy;
    if events != [] {
      var t := Next(cfg, s, events[0]);
      StepAccounts(cfg, s, events[0]);
      StepInv(cfg, s, events[0]);
      RunAccounts(cfg, t, events[1..]);
      Balance(Known(After(cfg, t, events[1..])), Ended(cfg, t, events[1..]), Known(t), Started(events[1..]),
              Known(s), EndedBy(s, events[0]), StartedBy(events[0]));
    }
  }

  lemma {:induction false} Balance(a: multiset<int>, ended: multiset<int>, b: multiset<int>, started: multiset<int>,
                                    c: multiset<int>, e: multiset<int>, f: multiset<int>)
    requires a + ended == b + started && b + e == c + f
    ensures a + (e + ended) == c + (f + started)
  {
    assert a + (e + ended) == (a + ended) + e;
    assert c + (f + started) == (c + f) + started;
  }

  /** At every moment of a run from start-up the groups started are those running, those orphaned and those reported empty,
      each as often as it was started; and when pan leaves, all have been reported empty. */
  lemma {:induction false} GroupsAccounted(cfg: Config, starts: int, forkInRoad: bool, file: string, others: multiset<int>, events: seq<Event>)
    requires WellFormed(cfg) && Zoo.Holds(file, others) && Runs(cfg, Init(cfg, starts, forkInRoad, file, others), events)
    ensures var s0 := Init(cfg, starts, forkInRoad, file, others); var s := After(cfg, s0, events);
      && Orphans.Groups(Pgrps(s.running)) + Orphans.Groups(s.orphans) + Ended(cfg, s0, events) == Started(events)
      && (s.phase.Over? ==> Ended(cfg, s0, events) == Started(events))
  {
    var s0 := Init(cfg, starts, forkInRoad, file, others);
    InitInv(cfg, starts, forkInRoad, file, others);
    NothingKnown(cfg, starts, forkInRoad, file, others);
    hide Init, Inv, Zoo.Holds;
    RunInv(cfg, s0, events);
    RunAccounts(cfg, s0, events);
    var s := After(cfg, s0, events);
    if s.phase.Over? { AllGone(cfg, s); }
  }

  lemma {:induction false} NothingKnown(cfg: Config, starts: int, forkInRoad: bool, file: string, others: multiset<int>)
    requires WellFormed(cfg)
    ensures Known(Init(cfg, starts, forkInRoad, file, others)) == multiset{}
  {
    hide MarkSpaces, ClearSpaces, SpacesMissed, Zoo.ApplyBytes;
    var s := Init(cfg, starts, forkInRoad, file, others);
    NoGroups(Pgrps(s.running));
    NoGroups(s.orphans);
  }

  lemma {:induction false} AllGone(cfg: Config, s: Pan)
    requires Inv(cfg, s) && s.phase.Over?
    ensures Known(s) == multiset{}
  {
    hide Zoo.Holds;
    NothingLeft(cfg, s);
    assert Own(cfg, s) == Known(s);
    assert s.others + Own(cfg, s) == s.others;
    assert forall p: int :: (s.others + Own(cfg, s))[p] == s.others[p] + Own(cfg, s)[p];
  }

  // ------------------------------------------------------------- the orphan list

  lemma {:induction false} InGroups(list: seq<int>, p: int)
    ensures p in Orphans.Groups(list) <==> p in list && p != 0
  {
    assert p in multiset(list) <==> p in list;
  }

  lemma {:induction false} CheckKeepsIn(list: seq<int>, dead: set<int>, p: int)
    requires p != 0 && p in list && p !in dead
    ensures p in Orphans.CheckSlots(list, dead)
  {
    InGroups(list, p);
    InGroups(Orphans.CheckSlots(list, dead), p);
    Orphans.CheckKeepsLiving(list, dead, p);
  }

  lemma {:induction false} MarkKeepsIn(list: seq<int>, pid: int, p: int)
    requires |list| >= 1 && p != 0 && p in list && pid != 0
    ensures p in Orphans.MarkSlot(list, pid)
  {
    hide Orphans.MarkSlot, Orphans.Groups;
    InGroups(list, p);
    InGroups(Orphans.MarkSlot(list, pid), p);
    Orphans.MarkEffect(list, pid);
  }

  lemma {:induction false} SettleOrphans(cfg: Config, s: Pan, stopFile: bool, dead: set<int>)
    requires WellFormed(cfg) && Shape(cfg, s)
    ensures Next(cfg, s, Settle(stopFile, dead)).orphans in {s.orphans, Orphans.CheckSlots(s.orphans, dead)}
  {
    hide WellFormed, Shape, Orphans.CheckZoo, Orphans.Kills, Orphans.Misses, Orphans.CheckSlots, StopSlots;
  }

  lemma {:induction false} CheckPidsOrphans(cfg: Config, s: Pan, wait: Wait)
    requires Shape(cfg, s)
    ensures CheckPids(cfg, s, wait).0.orphans in {s.orphans, Orphans.MarkSlot(s.orphans, if wait.Child? then wait.pid else 0)}
  {
    hide Zoo.ApplyBytes, Zoo.Finds, Verdict, Orphans.MarkSlot;
  }

  lemma {:induction false} ReapOrphans(cfg: Config, s: Pan, dead: set<int>, wait: Wait, p: int)
    requires WellFormed(cfg) && Shape(cfg, s) && Enabled(cfg, s, Reap(dead, wait)) && p != 0 && p in s.orphans && p !in dead
    ensures p in Next(cfg, s, Reap(dead, wait)).orphans
  {
    var t := CheckOrphans(s, dead, 0);
    CheckKeepsIn(s.orphans, dead, p);
    CheckPidsOrphans(cfg, t, wait);
    if wait.Child? { MarkKeepsIn(t.orphans, wait.pid, p); }
    NoChildOrphans(cfg, t);
    AfterCheckSame(cfg, CheckPids(cfg, t, wait).0, CheckPids(cfg, t, wait).1);
    hide WellFormed, AfterCheck, CheckPids, Orphans.CheckZoo, Orphans.Kills, Orphans.Misses, Orphans.CheckSlots, Orphans.MarkSlot;
  }

  lemma {:induction false} NoChildOrphans(cfg: Config, s: Pan)
    requires Shape(cfg, s)
    ensures CheckPids(cfg, s, NoChild).0.orphans == s.orphans
  {
  }

  lemma {:induction false} AfterCheckSame(cfg: Config, s: Pan, err: int)
    ensures AfterCheck(cfg, s, err).orphans == s.orphans
  {
  }

  /** The groups that kill reports empty. */
  function Dead(e: Event): set<int> {
    match e
    case Settle(_, dead) => dead
    case Reap(dead, _) => dead
    case Drain(dead) => dead
    case _ => {}
  }

  /** An orphaned group stays on the list in every event that does not report it empty. */
  lemma {:induction false} OrphanStays(cfg: Config, s: Pan, e: Event, p: int)
    requires Inv(cfg, s) && Enabled(cfg, s, e) && p != 0 && p in s.orphans && p !in Dead(e)
    ensures WellFormed(cfg) && Shape(cfg, s) && p in Next(cfg, s, e).orphans
  {
    CoreFacts(cfg, s);
    hide Inv, WellFormed, Next, Orphans.CheckSlots;
    match e
    case Settle(stopFile, dead) =>
      SettleOrphans(cfg, s, stopFile, dead);
      CheckKeepsIn(s.orphans, dead, p);
    case Reap(dead, wait) => ReapOrphans(cfg, s, dead, wait, p);
    case Drain(dead) =>
      DrainOrphans(cfg, s, dead);
      CheckKeepsIn(s.orphans, dead, p);
    case _ => RestOrphans(cfg, s, e);
  }

  lemma {:induction false} FromCheck(list: seq<int>, dead: set<int>, p: int)
    requires p != 0 && p in Orphans.CheckSlots(list, dead)
    ensures p in list
  {
    InGroups(list, p);
    InGroups(Orphans.CheckSlots(list, dead), p);
    Orphans.CheckKeepsLiving(list, dead, p);
  }

  lemma {:induction false} FromMark(list: seq<int>, pid: int, p: int)
    requires |list| >= 1 && p != 0 && p in Orphans.MarkSlot(list, pid)
    ensures p in list || p == pid
  {
  }

  lemma {:induction false} ReapComes(cfg: Config, s: Pan, dead: set<int>, wait: Wait, p: int)
    requires Inv(cfg, s) && Enabled(cfg, s, Reap(dead, wait)) && p != 0
    ensures WellFormed(cfg) && Shape(cfg, s)
    ensures p in Next(cfg, s, Reap(dead, wait)).orphans ==> p in s.orphans || (wait.Child? && wait.survives && wait.pid == p)
  {
    CoreFacts(cfg, s);
    PanTexts.CheckedInv(cfg, s, dead);
    PanTexts.ReapIs(cfg, s, dead, wait);
    PanTexts.ReapAnswer(cfg, s, dead, wait);
    var t := CheckOrphans(s, dead, 0);
    assert t.orphans == Orphans.CheckSlots(s.orphans, dead);
    var r := CheckPids(cfg, t, wait);
    AfterCheckSame(cfg, r.0, r.1);
    OnlySurvivors(cfg, t, wait);
    hide Inv, WellFormed, Shape, AfterCheck, CheckPids, CheckOrphans, Next, Enabled, PanTexts.GivesUp, Orphans.CheckSlots, Orphans.MarkSlot;
    if p in t.orphans { FromCheck(s.orphans, dead, p); }
    if wait.Child? && p in Orphans.MarkSlot(t.orphans, wait.pid) { FromMark(t.orphans, wait.pid, p); }
  }

  lemma {:induction false} OnlySurvivors(cfg: Config, s: Pan, wait: Wait)
    requires Shape(cfg, s)
    ensures var t := CheckPids(cfg, s, wait).0;
      t.orphans == s.orphans || (wait.Child? && wait.survives && t.orphans == Orphans.MarkSlot(s.orphans, wait.pid))
  {
    hide Zoo.ApplyBytes, Zoo.Finds, Verdict, Orphans.MarkSlot;
  }

  /** And it comes onto the list only as the surviving group of a dead child. */
  lemma {:induction false} OrphanComes(cfg: Config, s: Pan, e: Event, p: int)
    requires Inv(cfg, s) && Enabled(cfg, s, e) && p != 0
    ensures WellFormed(cfg) && Shape(cfg, s)
    ensures p in Next(cfg, s, e).orphans ==> p in s.orphans || (e.Reap? && e.wait.Child? && e.wait.survives && e.wait.pid == p)
  {
    CoreFacts(cfg, s);
    match e
    case Settle(stopFile, dead) =>
      SettleOrphans(cfg, s, stopFile, dead);
      hide Next, Inv, WellFormed, Orphans.CheckSlots;
      if p in Orphans.CheckSlots(s.orphans, dead) { FromCheck(s.orphans, dead, p); }
    case Reap(dead, wait) => ReapComes(cfg, s, dead, wait, p);
    case Drain(dead) =>
      DrainOrphans(cfg, s, dead);
      hide Next, Inv, WellFormed, Orphans.CheckSlots;
      if p in Orphans.CheckSlots(s.orphans, dead) { FromCheck(s.orphans, dead, p); }
    case _ => RestOrphans(cfg, s, e);
  }

  lemma {:induction false} DrainOrphans(cfg: Config, s: Pan, dead: set<int>)
    requires WellFormed(cfg) && Shape(cfg, s)
    ensures Next(cfg, s, Drain(dead)).orphans == Orphans.CheckSlots(s.orphans, dead)
  {
    hide WellFormed, Shape, WaitHandler, Orphans.CheckSlots, Orphans.CheckZoo, Orphans.Kills, Orphans.Misses;
  }

  lemma {:induction false} RestOrphans(cfg: Config, s: Pan, e: Event)
    requires WellFormed(cfg) && Shape(cfg, s) && Enabled(cfg, s, e) && (e.Attempt? || e.Deliver? || e.Leave? || e.Foreign?)
    ensures Next(cfg, s, e).orphans == s.orphans
  {
    hide WellFormed, Zoo.ApplyBytes, Zoo.Finds, WaitHandler;
  }
}
