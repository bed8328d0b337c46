/** Whom ltp-pan signals: in every run only process groups it started itself, and in a propagation all of them. */
module PanSignals {
  import opened Signals
  import opened PanModel
  import opened PanInvariant
  import opened PanProgress
  import opened PanControl
  import Orphans
  import PanGroups
  import PanTexts
  import Zoo

  /** A propagation sends the signal to every running and every orphaned group, and to nobody else. */
  lemma {:induction false} PropagationExactly(s: Pan, dead: set<int>, k: Orphans.Kill)
    ensures var t := Propagate(s, dead);
      && s.kills <= t.kills
      && (k in t.kills[|s.kills|..] <==>
            k.sig == s.ratchet.sending && k.pgrp != 0 && (k.pgrp in Pgrps(s.running) || k.pgrp in s.orphans))
  {
    hide Orphans.Kills;
    var sig := s.ratchet.sending;
    Orphans.KillsExactly(Pgrps(s.running), sig, k);
    Orphans.KillsExactly(s.orphans, sig, k);
    Behind(s.kills, Orphans.Kills(Pgrps(s.running), sig), Orphans.Kills(s.orphans, sig));
  }

  /** A pass of the orphan loop sends the signal that the ratchet has come to, to every orphaned group: so once that is
      SIGKILL, every group that is left gets it. */
  lemma {:induction false} DrainReachesAll(cfg: Config, s: Pan, dead: set<int>, p: int)
    requires Core(cfg, s) && Enabled(cfg, s, Drain(dead)) && p in s.orphans && p != 0
    ensures var t := Next(cfg, s, Drain(dead)); s.kills <= t.kills && Orphans.Kill(p, DrainSends(s)) in t.kills[|s.kills|..]
  {
    hide Propagate, Core;
    CoreFacts(cfg, s);
    var u := if s.ratchet.received == 0 then s.(ratchet := WaitHandler(s.ratchet, SIGINT)) else s;
    PropagationExactly(u, dead, Orphans.Kill(p, DrainSends(s)));
  }

  lemma {:induction false} Behind(a: seq<Orphans.Kill>, b: seq<Orphans.Kill>, c: seq<Orphans.Kill>)
    ensures ((a + b) + c)[|a|..] == b + c && a <= (a + b) + c
  {
  }

  // ------------------------------------------------------------- each event

  /** The signal that an event passes on. */
  function Passed(s: Pan, e: Event): int { if e.Drain? then DrainSends(s) else s.ratchet.sending }

  /** What an event sends: a signal passed on goes to every running and every orphaned group; check_pids asks all orphaned
      groups and that of the dead child with signal 0, and if that one lives on it gets a SIGTERM. */
  predicate Sent(s: Pan, e: Event, k: Orphans.Kill) {
    || (Sends(s, e) && k.sig == Passed(s, e) && k.pgrp != 0 && (k.pgrp in Pgrps(s.running) || k.pgrp in s.orphans))
    || (e.Reap? && k.sig == 0 && k.pgrp != 0 && k.pgrp in s.orphans)
    || (e.Reap? && e.wait.Child? && k == Orphans.Kill(e.wait.pid, 0))
    || (e.Reap? && e.wait.Child? && e.wait.survives && k == Orphans.Kill(e.wait.pid, SIGTERM))
  }

  predicate Adds(s: Pan, t: Pan, e: Event, k: Orphans.Kill) {
    s.kills <= t.kills && (k in t.kills[|s.kills|..] <==> Sent(s, e, k))
  }

  lemma {:induction false} AddsNothing(s: Pan, t: Pan, e: Event, k: Orphans.Kill)
    requires t.kills == s.kills && !e.Reap? && !Sends(s, e)
    ensures Adds(s, t, e, k)
  {
  }

  lemma {:induction false} SettleSends(cfg: Config, s: Pan, stopFile: bool, dead: set<int>, k: Orphans.Kill)
    requires WellFormed(cfg) && Shape(cfg, s) && s.phase.Scheduling?
    ensures var e := Settle(stopFile, dead); Adds(s, Next(cfg, s, e), e, k)
  {
    var e := Settle(stopFile, dead);
    var u := StopCheck(s, stopFile);
    var v := if u.ratchet.received == SIGUSR1 then u.(forkInRoad := false) else u;
    PropagationExactly(v, dead, k);
    hide WellFormed, Shape, Propagate, Pgrps;
    if !Sends(s, e) { AddsNothing(s, Next(cfg, s, e), e, k); }
  }

  lemma {:induction false} DrainSendsOut(cfg: Config, s: Pan, dead: set<int>, k: Orphans.Kill)
    requires WellFormed(cfg) && Shape(cfg, s)
    ensures Adds(s, Next(cfg, s, Drain(dead)), Drain(dead), k)
  {
    PropagationExactly(if s.ratchet.received == 0 then s.(ratchet := WaitHandler(s.ratchet, SIGINT)) else s, dead, k);
    hide WellFormed, Shape, Propagate, Pgrps, WaitHandler;
  }

  /** The signals check_pids itself sends. */
  function ChildKills(wait: Wait): seq<Orphans.Kill> {
    if wait.NoChild? then []
    else [Orphans.Kill(wait.pid, 0)] + if wait.survives then [Orphans.Kill(wait.pid, SIGTERM)] else []
  }

  lemma {:induction false} KillsOf(cfg: Config, s: Pan, wait: Wait)
    requires |s.orphans| >= 1 && forall i :: 0 <= i < |s.running| ==> s.running[i].cmd < |cfg.coll|
    requires wait.Child? ==> FirstSlot(s.running, wait.pid) < |s.running| && Zoo.Finds(s.zoo, wait.pid)
    ensures CheckPids(cfg, s, wait).0.kills == s.kills + ChildKills(wait)
  {
    hide FirstSlot, Zoo.ApplyBytes, Zoo.Finds, Orphans.MarkSlot, Verdict;
  }

  lemma {:induction false} CheckPidsKills(cfg: Config, s: Pan, wait: Wait)
    requires Inv(cfg, s) && s.phase.Reaping? && (wait.Child? ==> 0 < wait.pid && wait.pid in Pgrps(s.running))
    ensures WellFormed(cfg) && Shape(cfg, s)
    ensures CheckPids(cfg, s, wait).0.kills == s.kills + ChildKills(wait)
  {
    CoreFacts(cfg, s);
    hide Inv, WellFormed, CheckPids, Zoo.Finds;
    if wait.Child? {
      var i := ReapedSlot(s, wait.pid);
      PanTexts.FoundPid(cfg, s, i);
    }
    KillsOf(cfg, s, wait);
  }

  lemma {:induction false} ReapKills(cfg: Config, s: Pan, dead: set<int>, wait: Wait)
    requires Inv(cfg, s) && Enabled(cfg, s, Reap(dead, wait))
    ensures WellFormed(cfg) && Shape(cfg, s)
    ensures Next(cfg, s, Reap(dead, wait)).kills == (s.kills + Orphans.Kills(s.orphans, 0)) + ChildKills(wait)
  {
    CoreFacts(cfg, s);
    PanTexts.CheckedInv(cfg, s, dead);
    PanTexts.ReapIs(cfg, s, dead, wait);
    PanTexts.ReapAnswer(cfg, s, dead, wait);
    var t := CheckOrphans(s, dead, 0);
    assert t.kills == s.kills + Orphans.Kills(s.orphans, 0);
    hide Inv, WellFormed, Shape, AfterCheck, CheckPids, CheckOrphans, Next, Enabled, PanTexts.GivesUp, Orphans.Kills, Pgrps;
    CheckPidsKills(cfg, t, wait);
    var r := CheckPids(cfg, t, wait);
    AfterCheckKills(cfg, r.0, r.1);
  }

  lemma {:induction false} KillsAdd(s: Pan, t: Pan, dead: set<int>, wait: Wait, k: Orphans.Kill)
    requires t.kills == (s.kills + Orphans.Kills(s.orphans, 0)) + ChildKills(wait)
    ensures Adds(s, t, Reap(dead, wait), k)
  {
    hide Orphans.Kills, Pgrps;
    Orphans.KillsExactly(s.orphans, 0, k);
    Behind(s.kills, Orphans.Kills(s.orphans, 0), ChildKills(wait));
  }

  lemma {:induction false} ReapSends(cfg: Config, s: Pan, dead: set<int>, wait: Wait, k: Orphans.Kill)
    requires Inv(cfg, s) && Enabled(cfg, s, Reap(dead, wait))
    ensures WellFormed(cfg) && Shape(cfg, s)
    ensures Adds(s, Next(cfg, s, Reap(dead, wait)), Reap(dead, wait), k)
  {
    ReapKills(cfg, s, dead, wait);
    hide Inv, WellFormed, Shape, Next, Enabled, Adds, ChildKills;
    KillsAdd(s, Next(cfg, s, Reap(dead, wait)), dead, wait, k);
  }

  lemma {:induction false} AfterCheckKills(cfg: Config, s: Pan, err: int)
    ensures AfterCheck(cfg, s, err).kills == s.kills
  {
  }

  /** Those signals go out in each event, and no others. */
  lemma {:induction false} SendsExactly(cfg: Config, s: Pan, e: Event, k: Orphans.Kill)
    requires Inv(cfg, s) && Enabled(cfg, s, e)
    ensures WellFormed(cfg) && Shape(cfg, s) && Adds(s, Next(cfg, s, e), e, k)
  {
    CoreFacts(cfg, s);
    hide Inv, WellFormed, Shape, Next, Adds, Sent;
    match e
    case Settle(stopFile, dead) => SettleSends(cfg, s, stopFile, dead, k);
    case Reap(dead, wait) => ReapSends(cfg, s, dead, wait, k);
    case Drain(dead) => DrainSendsOut(cfg, s, dead, k);
    case _ =>
      RestSends(cfg, s, e);
      AddsNothing(s, Next(cfg, s, e), e, k);
  }

  lemma {:induction false} RestSends(cfg: Config, s: Pan, e: Event)
    requires WellFormed(cfg) && Shape(cfg, s) && Enabled(cfg, s, e) && (e.Attempt? || e.Deliver? || e.Leave? || e.Foreign?)
    ensures Next(cfg, s, e).kills == s.kills
  {
    hide WellFormed, Zoo.ApplyBytes, Zoo.Finds, WaitHandler;
  }

  // ------------------------------------------------------------------ whole runs

  /** Every group that has come onto the list of orphans has been sent a SIGTERM. */
  predicate Termed(s: Pan) {
    forall p <- s.orphans :: p != 0 ==> Orphans.Kill(p, SIGTERM) in s.kills
  }

  lemma {:induction false} TermedStep(cfg: Config, s: Pan, e: Event)
    requires Inv(cfg, s) && Enabled(cfg, s, e) && Termed(s)
    ensures WellFormed(cfg) && Shape(cfg, s) && Termed(Next(cfg, s, e))
  {
    CoreFacts(cfg, s);
    var t := Next(cfg, s, e);
    forall p | p in t.orphans && p != 0 ensures Orphans.Kill(p, SIGTERM) in t.kills {
      SendsExactly(cfg, s, e, Orphans.Kill(p, SIGTERM));
      PanGroups.OrphanComes(cfg, s, e, p);
      InLonger(s.kills, t.kills, Orphans.Kill(p, SIGTERM));
    }
  }

  lemma {:induction false} InLonger(a: seq<Orphans.Kill>, b: seq<Orphans.Kill>, k: Orphans.Kill)
    requires a <= b
    ensures k in b <==> k in a || k in b[|a|..]
  {
    assert b == a + b[|a|..];
  }

  lemma {:induction false} OrphansWereTermed(cfg: Config, s: Pan, events: seq<Event>)
    requires Inv(cfg, s) && Runs(cfg, s, events) && Termed(s)
    ensures Termed(After(cfg, s, events))
    decreases |events|
  {
    hide Inv, Next, Enabled, Termed;
    if events != [] {
      TermedStep(cfg, s, events[0]);
      StepInv(cfg, s, events[0]);
      OrphansWereTermed(cfg, Next(cfg, s, events[0]), events[1..]);
    }
  }

  /** In every run from start-up every orphaned group has been sent a SIGTERM. */
  lemma {:induction false} EveryOrphanTermed(cfg: Config, starts: int, forkInRoad: bool, file: string, others: multiset<int>, events: seq<Event>)
    requires WellFormed(cfg) && Zoo.Holds(file, others) && Runs(cfg, Init(cfg, starts, forkInRoad, file, others), events)
    ensures var s := After(cfg, Init(cfg, starts, forkInRoad, file, others), events);
      forall p <- s.orphans :: p != 0 ==> Orphans.Kill(p, SIGTERM) in s.kills
  {
    var s := Init(cfg, starts, forkInRoad, file, others);
    assert Termed(s);
    hide Init, Zoo.Holds;
    InitInv(cfg, starts, forkInRoad, file, others);
    OrphansWereTermed(cfg, s, events);
  }

  /** The pids of the children a run started. */
  ghost function StartedIn(events: seq<Event>): set<int> {
    if events == [] then {} else StartedBy(events[0]) + StartedIn(events[1..])
  }

  function StartedBy(e: Event): set<int> {
    if e.Attempt? && e.outcome.Started? then {e.outcome.pid} else {}
  }

  /** Every group in the table, on the list and in the record of signals is one of these. */
  predicate Tracks(s: Pan, pids: set<int>) {
    && (forall i :: 0 <= i < |s.running| ==> s.running[i].pgrp == 0 || s.running[i].pgrp in pids)
    && (forall i :: 0 <= i < |s.orphans| ==> s.orphans[i] == 0 || s.orphans[i] in pids)
    && (forall k <- s.kills :: k.pgrp in pids)
  }

  lemma {:induction false} KillsTracked(list: seq<int>, sig: int, pids: set<int>)
    requires forall i :: 0 <= i < |list| ==> list[i] == 0 || list[i] in pids
    ensures forall k <- Orphans.Kills(list, sig) :: k.pgrp in pids
  {
    hide Orphans.Kills;
    forall k | k in Orphans.Kills(list, sig) ensures k.pgrp in pids { Orphans.KillsExactly(list, sig, k); }
  }

  lemma {:induction false} CheckOrphansTracks(s: Pan, dead: set<int>, sig: int, pids: set<int>)
    requires Tracks(s, pids)
    ensures Tracks(CheckOrphans(s, dead, sig), pids)
  {
    hide Zoo.ApplyBytes, Orphans.CheckZoo, Orphans.Kills;
    KillsTracked(s.orphans, sig, pids);
  }

  lemma {:induction false} PropagateTracks(s: Pan, dead: set<int>, pids: set<int>)
    requires Tracks(s, pids)
    ensures Tracks(Propagate(s, dead), pids)
  {
    hide Zoo.ApplyBytes, Orphans.CheckZoo, Orphans.Kills;
    var t := s.(kills := s.kills + Orphans.Kills(Pgrps(s.running), s.ratchet.sending));
    KillsTracked(Pgrps(s.running), s.ratchet.sending, pids);
    CheckOrphansTracks(t, dead, s.ratchet.sending, pids);
    var u := CheckOrphans(t, dead, s.ratchet.sending);
    SameGroups(u, Propagate(s, dead), pids);
  }

  lemma {:induction false} SameGroups(s: Pan, t: Pan, pids: set<int>)
    requires Tracks(s, pids) && t.orphans == s.orphans && t.kills == s.kills
    requires t.running == s.running || t.running == StopSlots(s.running)
    ensures Tracks(t, pids)
  {
  }

  lemma {:induction false} SettleTracks(s: Pan, stopFile: bool, dead: set<int>, pids: set<int>)
    requires Tracks(s, pids)
    ensures Tracks(SettleSignal(StopCheck(s, stopFile), dead).(phase := Reaping), pids)
  {
    hide Tracks, Propagate;
    var t := StopCheck(s, stopFile);
    var u := if s.ratchet.received == SIGUSR1 then t.(forkInRoad := false) else t;
    SameGroups(s, u, pids);
    PropagateTracks(u, dead, pids);
    SameGroups(Propagate(u, dead), StopOrIdle(Propagate(u, dead)).(phase := Reaping), pids);
    SameGroups(s, t.(phase := Reaping), pids);
    SameGroups(s, StopOrIdle(t).(ratchet := Propagated(t.ratchet), phase := Reaping), pids);
  }

  lemma {:induction false} LaunchTracks(cfg: Config, s: Pan, c: nat, outcome: Outcome, pids: set<int>)
    requires c < |cfg.coll| && |s.running| == cfg.keepActive && Tracks(s, pids)
    ensures Tracks(Launch(cfg, s, c, outcome), pids + if outcome.Started? then {outcome.pid} else {})
  {
    hide Zoo.ApplyBytes, WaitHandler;
  }

  lemma {:induction false} MarkTracks(list: seq<int>, pid: int, pids: set<int>)
    requires |list| >= 1 && pid in pids && forall i :: 0 <= i < |list| ==> list[i] == 0 || list[i] in pids
    ensures forall i :: 0 <= i < |Orphans.MarkSlot(list, pid)| ==>
      Orphans.MarkSlot(list, pid)[i] == 0 || Orphans.MarkSlot(list, pid)[i] in pids
  {
  }

  lemma {:induction false} CheckPidsTracks(cfg: Config, s: Pan, wait: Wait, pids: set<int>)
    requires Shape(cfg, s) && Tracks(s, pids) && (wait.Child? ==> wait.pid > 0 && wait.pid in Pgrps(s.running))
    ensures Tracks(CheckPids(cfg, s, wait).0, pids)
  {
    hide Zoo.ApplyBytes, Zoo.Finds, Orphans.MarkSlot, Verdict;
    if wait.Child? {
      var i := ReapedSlot(s, wait.pid);
      assert s.running[i].pgrp in pids;
      MarkTracks(s.orphans, wait.pid, pids);
    }
  }

  lemma {:induction false} ReapTracks(cfg: Config, s: Pan, dead: set<int>, wait: Wait, pids: set<int>)
    requires WellFormed(cfg) && Shape(cfg, s) && Enabled(cfg, s, Reap(dead, wait)) && Tracks(s, pids)
    ensures Tracks(Next(cfg, s, Reap(dead, wait)), pids)
  {
    hide Zoo.ApplyBytes, Zoo.Finds, CheckPids, WaitHandler, Orphans.Kills, Orphans.CheckZoo;
    CheckOrphansTracks(s, dead, 0, pids);
    CheckPidsTracks(cfg, CheckOrphans(s, dead, 0), wait, pids);
    var r := CheckPids(cfg, CheckOrphans(s, dead, 0), wait);
    SameGroups(r.0, AfterCheck(cfg, r.0, r.1), pids);
  }

  lemma {:induction false} DrainTracks(cfg: Config, s: Pan, dead: set<int>, pids: set<int>)
    requires WellFormed(cfg) && Shape(cfg, s) && Tracks(s, pids)
    ensures Tracks(Next(cfg, s, Drain(dead)), pids)
  {
    hide Tracks, Propagate;
    var t := if s.ratchet.received == 0 then s.(ratchet := WaitHandler(s.ratchet, SIGINT)) else s;
    SameGroups(s, t, pids);
    PropagateTracks(t, dead, pids);
  }

  lemma {:induction false} StepTracks(cfg: Config, s: Pan, e: Event, pids: set<int>)
    requires WellFormed(cfg) && Shape(cfg, s) && Enabled(cfg, s, e) && Tracks(s, pids)
    ensures Tracks(Next(cfg, s, e), pids + StartedBy(e))
  {
    hide Tracks, Zoo.ApplyBytes, Zoo.Finds, WaitHandler, Propagate, SettleSignal, CheckPids, AfterCheck, Launch;
    assert !e.Attempt? ==> pids + StartedBy(e) == pids;
    match e
    case Deliver(sig) => SameGroups(s, Next(cfg, s, e), pids);
    case Attempt(choice, outcome) => LaunchTracks(cfg, s, if cfg.sequential then s.c else choice % |cfg.coll|, outcome, pids);
    case Settle(stopFile, dead) => SettleTracks(s, stopFile, dead, pids);
    case Reap(dead, wait) => ReapTracks(cfg, s, dead, wait, pids);
    case Drain(dead) => DrainTracks(cfg, s, dead, pids);
    case Leave => SameGroups(s, Next(cfg, s, e), pids);
    case Foreign(_) => SameGroups(s, Next(cfg, s, e), pids);
  }

  lemma {:induction false} RunTracks(cfg: Config, s: Pan, events: seq<Event>, pids: set<int>)
    requires Runs(cfg, s, events) && Tracks(s, pids)
    ensures Tracks(After(cfg, s, events), pids + StartedIn(events))
    decreases |events|
  {
    hide Tracks, Next, Enabled, StartedBy;
    if events == [] {
      assert pids + StartedIn(events) == pids;
    } else {
      StepTracks(cfg, s, events[0], pids);
      RunTracks(cfg, Next(cfg, s, events[0]), events[1..], pids + StartedBy(events[0]));
      assert (pids + StartedBy(events[0])) + StartedIn(events[1..]) == pids + StartedIn(events);
    }
  }

  lemma {:induction false} StartedPositive(cfg: Config, s: Pan, events: seq<Event>)
    requires Runs(cfg, s, events)
    ensures forall p <- StartedIn(events) :: p > 0
    decreases |events|
  {
    hide Next;
    if events != [] { StartedPositive(cfg, Next(cfg, s, events[0]), events[1..]); }
  }

  /** In every run from start-up, every signal pan sends, and every question whether a group is empty, goes to a group with
      a positive number whose leader pan itself started in that run: never to group 0, which would be pan's own. */
  lemma {:induction false} OnlyOwnGroups(cfg: Config, starts: int, forkInRoad: bool, file: string, others: multiset<int>, events: seq<Event>)
    requires WellFormed(cfg) && Runs(cfg, Init(cfg, starts, forkInRoad, file, others), events)
    ensures forall k <- After(cfg, Init(cfg, starts, forkInRoad, file, others), events).kills :: k.pgrp > 0 && k.pgrp in StartedIn(events)
  {
    hide Zoo.ApplyBytes, Runs, After;
    var s := Init(cfg, starts, forkInRoad, file, others);
    assert Tracks(s, {});
    RunTracks(cfg, s, events, {});
    StartedPositive(cfg, s, events);
    assert {} + StartedIn(events) == StartedIn(events);
  }
}
