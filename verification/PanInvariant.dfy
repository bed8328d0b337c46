/** What every event keeps, and what holds in every reachable state of the scheduler. */
module PanInvariant {
  import opened Basics
  import opened Counting
  import opened Signals
  import opened PanModel
  import Orphans
  import Zoo

  /** The zoo entries that belong to pan: its own, those of the running groups and those of the orphaned groups. */
  function Own(cfg: Config, s: Pan): multiset<int> {
    (if s.phase.Over? then multiset{} else multiset{cfg.pid}) + Orphans.Groups(Pgrps(s.running)) + Orphans.Groups(s.orphans)
  }

  /** The ledger: the live entries of the zoo file are pan's own and those other programs put there. */
  ghost predicate Ledger(cfg: Config, s: Pan) {
    Zoo.Holds(s.zoo, s.others + Own(cfg, s)) && s.missed == 0
  }

  /** In sequential mode the k-th attempt is command k mod cnt. */
  predicate InOrder(cfg: Config, s: Pan)
    requires |cfg.coll| >= 1
  {
    cfg.sequential ==>
      && s.c == |s.attempts| % |cfg.coll|
      && forall k :: 0 <= k < |s.attempts| ==> s.attempts[k] == k % |cfg.coll|
  }

  /** Tables, counters and flags. */
  predicate Core(cfg: Config, s: Pan) {
    && WellFormed(cfg) && Shape(cfg, s)
    && !s.phase.Aborted?
    && s.numActive == Count(s.running, InUse)
    && InOrder(cfg, s)
    && (s.ratchet.received == 0 ==> s.ratchet.sending == 0)
    && (s.phase.Draining? || s.phase.Over? ==> s.numActive == 0)
    && (s.phase.Over? ==> !HasOrphans(s))
  }

  ghost predicate Inv(cfg: Config, s: Pan) {
    Core(cfg, s) && Ledger(cfg, s)
  }

  // --------------------------------------------------------------- start of main

  /** The pids lo .. hi - 1 of the spaces that main marks and clears again. */
  ghost function Spaces(lo: nat, hi: nat): multiset<int> {
    if lo >= hi then multiset{} else Spaces(lo, hi - 1) + multiset{hi - 1}
  }

  lemma {:induction false} SpacesFront(lo: nat, hi: nat)
    requires lo < hi
    ensures Spaces(lo, hi) == multiset{lo} + Spaces(lo + 1, hi)
  {
    if lo < hi - 1 { SpacesFront(lo, hi - 1); }
  }

  lemma {:induction false} SpaceOp(cfg: Config, c: nat)
    requires WellFormed(cfg) && c < cfg.keepActive
    ensures Zoo.OkOp(Zoo.Mark(c, cfg.panname, "")) && Zoo.OkOp(Zoo.Clear(c))
  {
  }

  lemma {:induction false} MarkSpacesHolds(cfg: Config, n: nat, file: string, live: multiset<int>)
    requires WellFormed(cfg) && n <= cfg.keepActive && Zoo.Holds(file, live)
    ensures Zoo.Holds(MarkSpaces(cfg, n, file), live + Spaces(0, n))
  {
    hide Zoo.Holds, Zoo.ApplyBytes, Zoo.Finds, Zoo.OkOp, WellFormed;
    if n == 0 {
      assert live + Spaces(0, 0) == live;
    } else {
      SpaceOp(cfg, n - 1);
      MarkSpacesHolds(cfg, n - 1, file, live);
      Zoo.ApplyHolds(MarkSpaces(cfg, n - 1, file), live + Spaces(0, n - 1), Zoo.Mark(n - 1, cfg.panname, ""));
      assert (live + Spaces(0, n - 1)) + multiset{n - 1} == live + Spaces(0, n);
    }
  }

  lemma {:induction false} ClearSpacesHolds(cfg: Config, n: nat, file: string, live: multiset<int>)
    requires WellFormed(cfg) && n <= cfg.keepActive && Zoo.Holds(file, live + Spaces(0, cfg.keepActive))
    ensures Zoo.Holds(ClearSpaces(n, file), live + Spaces(n, cfg.keepActive))
  {
    hide Zoo.Holds, Zoo.ApplyBytes, Zoo.Finds, Zoo.OkOp, WellFormed;
    if n > 0 {
      SpaceOp(cfg, n - 1);
      ClearSpacesHolds(cfg, n - 1, file, live);
      SpacesFront(n - 1, cfg.keepActive);
      Zoo.ApplyHolds(ClearSpaces(n - 1, file), live + Spaces(n - 1, cfg.keepActive), Zoo.Clear(n - 1));
      assert (live + Spaces(n - 1, cfg.keepActive)) - multiset{n - 1} == live + Spaces(n, cfg.keepActive);
    }
  }

  lemma {:induction false} SpacesFound(cfg: Config, n: nat, file: string, live: multiset<int>)
    requires WellFormed(cfg) && n <= cfg.keepActive && Zoo.Holds(file, live + Spaces(0, cfg.keepActive))
    ensures SpacesMissed(n, file) == 0
  {
    hide Zoo.Holds, Zoo.ApplyBytes, Zoo.Finds, Zoo.OkOp, WellFormed;
    if n > 0 {
      SpacesFound(cfg, n - 1, file, live);
      SpaceOp(cfg, n - 1);
      ClearSpacesHolds(cfg, n - 1, file, live);
      SpacesFront(n - 1, cfg.keepActive);
      Zoo.ApplyHolds(ClearSpaces(n - 1, file), live + Spaces(n - 1, cfg.keepActive), Zoo.Clear(n - 1));
    }
  }

  lemma {:induction false} NoGroups(list: seq<int>)
    requires forall i :: 0 <= i < |list| ==> list[i] == 0
    ensures Orphans.Groups(list) == multiset{}
  {
  }

  /** After its start-up pan owns one zoo entry, its own; the spaces it marked are free lines. */
  lemma {:induction false} InitInv(cfg: Config, starts: int, forkInRoad: bool, file: string, others: multiset<int>)
    requires WellFormed(cfg) && Zoo.Holds(file, others)
    ensures Inv(cfg, Init(cfg, starts, forkInRoad, file, others))
  {
    hide Zoo.Holds, Zoo.ApplyBytes, Zoo.Finds;
    var s := Init(cfg, starts, forkInRoad, file, others);
    var marked := Zoo.ApplyBytes(file, Zoo.Mark(cfg.pid, cfg.panname, cfg.args));
    var live := others + multiset{cfg.pid};
    Zoo.ApplyHolds(file, others, Zoo.Mark(cfg.pid, cfg.panname, cfg.args));
    MarkSpacesHolds(cfg, cfg.keepActive, marked, live);
    ClearSpacesHolds(cfg, cfg.keepActive, MarkSpaces(cfg, cfg.keepActive, marked), live);
    SpacesFound(cfg, cfg.keepActive, MarkSpaces(cfg, cfg.keepActive, marked), live);
    NoGroups(Pgrps(s.running));
    NoGroups(s.orphans);
    assert s.others + Own(cfg, s) == live + Spaces(cfg.keepActive, cfg.keepActive);
    CountZero(s.running, InUse);
  }

  // ------------------------------------------------------------- pieces of a step

  lemma {:induction false} PgrpsUpdate(running: seq<Slot>, i: nat, x: Slot)
    requires i < |running|
    ensures Pgrps(running[i := x]) == Pgrps(running)[i := x.pgrp]
  {
  }

  lemma {:induction false} StopSlotsKeep(running: seq<Slot>)
    ensures Pgrps(StopSlots(running)) == Pgrps(running)
    ensures Count(StopSlots(running), InUse) == Count(running, InUse)
  {
    assert Positions(StopSlots(running), InUse) == Positions(running, InUse);
  }

  lemma {:induction false} CheckOrphansKeeps(cfg: Config, s: Pan, dead: set<int>, sig: int)
    requires WellFormed(cfg) && Shape(cfg, s) && Ledger(cfg, s) && s.phase != Over
    ensures Shape(cfg, CheckOrphans(s, dead, sig)) && Ledger(cfg, CheckOrphans(s, dead, sig))
  {
    hide Zoo.Holds, Zoo.ApplyBytes, Zoo.Finds;
    var rest := s.others + multiset{cfg.pid} + Orphans.Groups(Pgrps(s.running));
    var t := CheckOrphans(s, dead, sig);
    assert s.others + Own(cfg, s) == rest + Orphans.Groups(s.orphans);
    Orphans.CheckEffect(s.orphans, dead, s.zoo, rest);
    Orphans.NoMisses(s.orphans, dead, s.zoo, rest);
    assert t.others + Own(cfg, t) == rest + Orphans.Groups(t.orphans);
  }

  lemma {:induction false} PropagateKeeps(cfg: Config, s: Pan, dead: set<int>)
    requires WellFormed(cfg) && Shape(cfg, s) && Ledger(cfg, s) && s.phase != Over
    ensures Shape(cfg, Propagate(s, dead)) && Ledger(cfg, Propagate(s, dead))
    ensures Count(Propagate(s, dead).running, InUse) == Count(s.running, InUse)
  {
    hide Zoo.Holds, Zoo.ApplyBytes, Zoo.Finds;
    var sig := s.ratchet.sending;
    var t := s.(kills := s.kills + Orphans.Kills(Pgrps(s.running), sig));
    SameLedger(cfg, s, t);
    CheckOrphansKeeps(cfg, t, dead, sig);
    StopSlotsKeep(s.running);
    assert Own(cfg, Propagate(s, dead)) == Own(cfg, CheckOrphans(t, dead, sig));
  }

  /** Whenever fewer than keep_active children are counted there is a free slot: "i == keep_active" cannot happen. */
  lemma {:induction false} FreeSlotExists(cfg: Config, s: Pan)
    requires Inv(cfg, s) && s.numActive < cfg.keepActive
    ensures FirstSlot(s.running, 0) < cfg.keepActive
  {
    CountAll(s.running, InUse);
  }

  lemma {:induction false} NextIndex(k: nat, cnt: nat)
    requires cnt >= 1
    ensures (k + 1) % cnt == if k % cnt + 1 >= cnt then 0 else k % cnt + 1
  {
    NextDivMod(k, cnt);
  }

  /** A started child's slot and its zoo entry. */
  lemma {:induction false} StartLedger(cfg: Config, s: Pan, c: nat, pid: int, i: nat)
    requires WellFormed(cfg) && Shape(cfg, s) && Ledger(cfg, s)
    requires c < |cfg.coll| && 0 < pid < MAX_PID && i < |s.running| && s.running[i].pgrp == 0
    ensures var op := Zoo.Mark(pid, cfg.coll[c].name, cfg.coll[c].cmdline);
      Ledger(cfg, s.(running := s.running[i := Slot(pid, false, c)], zoo := Zoo.ApplyBytes(s.zoo, op)))
  {
    hide Zoo.Holds, Zoo.ApplyBytes, Zoo.Finds;
    var slot := Slot(pid, false, c);
    Zoo.ApplyHolds(s.zoo, s.others + Own(cfg, s), Zoo.Mark(pid, cfg.coll[c].name, cfg.coll[c].cmdline));
    PgrpsUpdate(s.running, i, slot);
    Orphans.GroupsUpdate(Pgrps(s.running), i, pid);
    assert s.others + Own(cfg, s.(running := s.running[i := slot])) == (s.others + Own(cfg, s)) + multiset{pid};
  }

  lemma {:induction false} LaunchCore(cfg: Config, s: Pan, c: nat, outcome: Outcome)
    requires Core(cfg, s) && s.phase.Scheduling? && FirstSlot(s.running, 0) < cfg.keepActive
    requires c < |cfg.coll| && (cfg.sequential ==> c == s.c) && (outcome.Started? ==> 0 < outcome.pid < MAX_PID)
    ensures Core(cfg, Launch(cfg, s, c, outcome))
  {
    hide Zoo.ApplyBytes;
    NextIndex(|s.attempts|, |cfg.coll|);
    if outcome.Started? { CountUpdate(s.running, FirstSlot(s.running, 0), Slot(outcome.pid, false, c), InUse); }
  }

  lemma {:induction false} LaunchKeeps(cfg: Config, s: Pan, choice: nat, outcome: Outcome)
    requires Inv(cfg, s) && Enabled(cfg, s, Attempt(choice, outcome))
    ensures Inv(cfg, Next(cfg, s, Attempt(choice, outcome)))
  {
    hide Zoo.Holds, Zoo.ApplyBytes, Zoo.Finds, Core;
    CoreFacts(cfg, s);
    var c := if cfg.sequential then s.c else choice % |cfg.coll|;
    FreeSlotExists(cfg, s);
    LaunchOrder(cfg, s);
    LaunchCore(cfg, s, c, outcome);
    if outcome.Started? { StartLedger(cfg, s, c, outcome.pid, FirstSlot(s.running, 0)); }
  }

  lemma {:induction false} LaunchOrder(cfg: Config, s: Pan)
    requires Core(cfg, s)
    ensures s.c < |cfg.coll|
  {
  }

  lemma {:induction false} CoreFacts(cfg: Config, s: Pan)
    requires Core(cfg, s)
    ensures WellFormed(cfg) && Shape(cfg, s) && s.numActive == Count(s.running, InUse)
  {
  }

  lemma {:induction false} PropagateCore(cfg: Config, s: Pan, dead: set<int>)
    requires Core(cfg, s) && !s.phase.Over?
    ensures Core(cfg, Propagate(s, dead)) && Propagate(s, dead).phase == s.phase
  {
    hide Zoo.ApplyBytes;
    StopSlotsKeep(s.running);
  }

  lemma {:induction false} SettleCore(cfg: Config, s: Pan, stopFile: bool, dead: set<int>)
    requires Core(cfg, s) && s.phase.Scheduling?
    ensures Core(cfg, SettleSignal(StopCheck(s, stopFile), dead).(phase := Reaping))
  {
    hide Zoo.ApplyBytes, InOrder, Propagate;
    var t := StopCheck(s, stopFile);
    var u := if s.ratchet.received == SIGUSR1 then t.(forkInRoad := false) else t;
    SameOrder(cfg, s, t);
    SameOrder(cfg, s, u);
    SameOrder(cfg, s, t.(ratchet := Propagated(t.ratchet), phase := Reaping));
    PropagateCore(cfg, u, dead);
    ReapingCore(cfg, Propagate(u, dead));
    ReapingCore(cfg, t);
  }

  lemma {:induction false} ReapingCore(cfg: Config, s: Pan)
    requires Core(cfg, s) && s.phase.Scheduling?
    ensures Core(cfg, s.(phase := Reaping)) && Core(cfg, StopOrIdle(s).(phase := Reaping))
    ensures Core(cfg, StopOrIdle(s).(phase := Reaping, ratchet := Propagated(s.ratchet)))
  {
  }

  lemma {:induction false} SameOrder(cfg: Config, s: Pan, t: Pan)
    requires |cfg.coll| >= 1 && InOrder(cfg, s) && s.c == t.c && s.attempts == t.attempts
    ensures InOrder(cfg, t)
  {
  }

  lemma {:induction false} SettleLedger(cfg: Config, s: Pan, stopFile: bool, dead: set<int>)
    requires WellFormed(cfg) && Shape(cfg, s) && Ledger(cfg, s) && s.phase.Scheduling?
    ensures Ledger(cfg, SettleSignal(StopCheck(s, stopFile), dead).(phase := Reaping))
  {
    hide Zoo.Holds, Zoo.ApplyBytes, Zoo.Finds, Ledger, Own;
    var t := StopCheck(s, stopFile);
    var u := if s.ratchet.received == SIGUSR1 then t.(forkInRoad := false) else t;
    SameLedger(cfg, s, u);
    PropagateKeeps(cfg, u, dead);
    SameLedger(cfg, Propagate(u, dead), StopOrIdle(Propagate(u, dead)).(phase := Reaping));
    SameLedger(cfg, s, t.(phase := Reaping));
    SameLedger(cfg, s, StopOrIdle(t).(ratchet := Propagated(t.ratchet), phase := Reaping));
  }

  lemma {:induction false} SettleKeeps(cfg: Config, s: Pan, stopFile: bool, dead: set<int>)
    requires Inv(cfg, s) && Enabled(cfg, s, Settle(stopFile, dead))
    ensures Inv(cfg, Next(cfg, s, Settle(stopFile, dead)))
  {
    hide Zoo.Holds, Zoo.ApplyBytes, Zoo.Finds, Ledger, Own, Core, SettleSignal;
    CoreFacts(cfg, s);
    SettleCore(cfg, s, stopFile, dead);
    SettleLedger(cfg, s, stopFile, dead);
  }

  /** The slot check_pids gives up for a dead child is a slot of its pid. */
  lemma {:induction false} ReapedSlot(s: Pan, pid: int) returns (i: nat)
    requires pid in Pgrps(s.running)
    ensures i == FirstSlot(s.running, pid) && i < |s.running| && s.running[i].pgrp == pid
  {
    i := FirstSlot(s.running, pid);
    var k :| 0 <= k < |s.running| && Pgrps(s.running)[k] == pid;
    assert s.running[k].pgrp == pid;
  }

  /** Giving up the slot and clearing the zoo entry: the clear finds it. */
  lemma {:induction false} ClearLedger(cfg: Config, s: Pan, i: nat)
    requires WellFormed(cfg) && Shape(cfg, s) && Ledger(cfg, s) && i < |s.running| && s.running[i].pgrp != 0
    ensures var pid := s.running[i].pgrp;
      && Zoo.Finds(s.zoo, pid)
      && Ledger(cfg, s.(running := s.running[i := s.running[i].(pgrp := 0)], zoo := Zoo.ApplyBytes(s.zoo, Zoo.Clear(pid))))
  {
    hide Zoo.Holds, Zoo.ApplyBytes, Zoo.Finds;
    var pid, slot := s.running[i].pgrp, s.running[i].(pgrp := 0);
    PgrpsUpdate(s.running, i, slot);
    Orphans.GroupsUpdate(Pgrps(s.running), i, 0);
    Zoo.ApplyHolds(s.zoo, s.others + Own(cfg, s), Zoo.Clear(pid));
    assert s.others + Own(cfg, s.(running := s.running[i := slot])) == (s.others + Own(cfg, s)) - multiset{pid};
  }

  /** A surviving group becomes an orphan and gets its zoo entry back. */
  lemma {:induction false} OrphanLedger(cfg: Config, s: Pan, pid: int, cmdline: string)
    requires WellFormed(cfg) && Shape(cfg, s) && Ledger(cfg, s) && 0 < pid < MAX_PID && '\n' !in cmdline
    ensures Ledger(cfg, s.(zoo := Zoo.ApplyBytes(s.zoo, Zoo.Mark(pid, "panorphan", cmdline)),
                           orphans := Orphans.MarkSlot(s.orphans, pid)))
  {
    hide Zoo.Holds, Zoo.ApplyBytes, Zoo.Finds;
    Zoo.ApplyHolds(s.zoo, s.others + Own(cfg, s), Zoo.Mark(pid, "panorphan", cmdline));
    Orphans.MarkEffect(s.orphans, pid);
    assert s.others + Own(cfg, s.(orphans := Orphans.MarkSlot(s.orphans, pid))) == (s.others + Own(cfg, s)) + multiset{pid};
  }

  lemma {:induction false} CheckPidsKeeps(cfg: Config, s: Pan, wait: Wait)
    requires Inv(cfg, s) && s.phase.Reaping?
    requires wait.Child? ==> 0 < wait.pid && wait.pid in Pgrps(s.running)
    ensures Inv(cfg, CheckPids(cfg, s, wait).0) && CheckPids(cfg, s, wait).0.phase.Reaping?
  {
    hide Zoo.Holds, Zoo.ApplyBytes, Zoo.Finds, Own;
    if wait.Child? {
      var i := ReapedSlot(s, wait.pid);
      var slot := s.running[i].(pgrp := 0);
      CountUpdate(s.running, i, slot, InUse);
      ClearLedger(cfg, s, i);
      var u := s.(running := s.running[i := slot], zoo := Zoo.ApplyBytes(s.zoo, Zoo.Clear(wait.pid)));
      Orphans.MarkRange(s.orphans, wait.pid, MAX_PID);
      OrphanLedger(cfg, u, wait.pid, cfg.coll[slot.cmd].cmdline);
      SameLedger(cfg, u, CheckPids(cfg, s, wait.(survives := false)).0);
      if wait.survives {
        SameLedger(cfg, u.(zoo := Zoo.ApplyBytes(u.zoo, Zoo.Mark(wait.pid, "panorphan", cfg.coll[slot.cmd].cmdline)),
                           orphans := Orphans.MarkSlot(s.orphans, wait.pid)), CheckPids(cfg, s, wait).0);
      }
    }
  }

  /** Only the zoo, the groups and the end of the run enter the ledger. */
  lemma {:induction false} SameLedger(cfg: Config, s: Pan, t: Pan)
    requires Ledger(cfg, s) && s.zoo == t.zoo && s.running == t.running && s.orphans == t.orphans
    requires s.phase.Over? == t.phase.Over? && s.others == t.others && s.missed == t.missed
    ensures Ledger(cfg, t)
  {
  }

  lemma {:induction false} CheckOrphansCore(cfg: Config, s: Pan, dead: set<int>)
    requires Core(cfg, s) && s.phase.Reaping?
    ensures Core(cfg, CheckOrphans(s, dead, 0))
  {
    hide Zoo.ApplyBytes;
  }

  lemma {:induction false} AfterCheckLedger(cfg: Config, s: Pan, err: int)
    requires Ledger(cfg, s) && s.phase.Reaping?
    ensures Ledger(cfg, AfterCheck(cfg, s, err))
  {
    hide Ledger, WaitHandler;
    SameLedger(cfg, s, AfterCheck(cfg, s, err));
  }

  lemma {:induction false} ReapKeeps(cfg: Config, s: Pan, dead: set<int>, wait: Wait)
    requires Inv(cfg, s) && Enabled(cfg, s, Reap(dead, wait))
    ensures Inv(cfg, Next(cfg, s, Reap(dead, wait)))
  {
    hide Zoo.Holds, Zoo.ApplyBytes, Zoo.Finds, Own, Ledger, Core, AfterCheck, CheckPids;
    var t := CheckOrphans(s, dead, 0);
    CoreFacts(cfg, s);
    CheckOrphansCore(cfg, s, dead);
    CheckOrphansKeeps(cfg, s, dead, 0);
    CheckPidsKeeps(cfg, t, wait);
    var r := CheckPids(cfg, t, wait);
    AfterCheckLedger(cfg, r.0, r.1);
    AfterCheckCore(cfg, r.0, r.1);
  }

  lemma {:induction false} AfterCheckCore(cfg: Config, s: Pan, err: int)
    requires Core(cfg, s) && s.phase.Reaping?
    ensures Core(cfg, AfterCheck(cfg, s, err)) && !AfterCheck(cfg, s, err).phase.Over?
  {
  }

  lemma {:induction false} DrainKeeps(cfg: Config, s: Pan, dead: set<int>)
    requires Inv(cfg, s) && Enabled(cfg, s, Drain(dead))
    ensures Inv(cfg, Next(cfg, s, Drain(dead)))
  {
    hide Zoo.Holds, Zoo.ApplyBytes, Zoo.Finds, Own, Ledger;
    var t := if s.ratchet.received == 0 then s.(ratchet := WaitHandler(s.ratchet, SIGINT)) else s;
    SameLedger(cfg, s, t);
    PropagateKeeps(cfg, t, dead);
  }

  lemma {:induction false} LeaveKeeps(cfg: Config, s: Pan)
    requires Inv(cfg, s) && Enabled(cfg, s, Leave)
    ensures Inv(cfg, Next(cfg, s, Leave))
  {
    hide Zoo.Holds, Zoo.ApplyBytes, Zoo.Finds, Core;
    CoreFacts(cfg, s);
    Zoo.ApplyHolds(s.zoo, s.others + Own(cfg, s), Zoo.Clear(cfg.pid));
    assert cfg.pid in s.others + Own(cfg, s);
    assert s.others + Own(cfg, s) - multiset{cfg.pid} == s.others + Own(cfg, Next(cfg, s, Leave));
    LeaveCore(cfg, s);
  }

  /** What another program does to its own entries leaves pan's alone. */
  lemma {:induction false} ForeignKeeps(cfg: Config, s: Pan, op: Zoo.Op)
    requires Inv(cfg, s) && Enabled(cfg, s, Foreign(op))
    ensures Inv(cfg, Next(cfg, s, Foreign(op)))
  {
    hide Zoo.Holds, Zoo.ApplyBytes, Zoo.Finds, Core, Own;
    CoreFacts(cfg, s);
    var t := Next(cfg, s, Foreign(op));
    Zoo.ApplyHolds(s.zoo, s.others + Own(cfg, s), op);
    SameOwn(cfg, s, t);
    assert Zoo.ApplyLive(s.others + Own(cfg, s), op) == Zoo.ApplyLive(s.others, op) + Own(cfg, s);
    ForeignCore(cfg, s, op);
  }

  lemma {:induction false} SameOwn(cfg: Config, s: Pan, t: Pan)
    requires s.phase == t.phase && s.running == t.running && s.orphans == t.orphans
    ensures Own(cfg, s) == Own(cfg, t)
  {
  }

  lemma {:induction false} ForeignCore(cfg: Config, s: Pan, op: Zoo.Op)
    requires Core(cfg, s)
    ensures Core(cfg, Next(cfg, s, Foreign(op)))
  {
    hide Zoo.ApplyBytes;
  }

  lemma {:induction false} LeaveCore(cfg: Config, s: Pan)
    requires Core(cfg, s) && Enabled(cfg, s, Leave)
    ensures Core(cfg, Next(cfg, s, Leave))
  {
    hide Zoo.ApplyBytes;
  }

  /** The invariant is inductive: num_active, the ledger, the launch order and the rest survive every event. */
  lemma {:induction false} StepInv(cfg: Config, s: Pan, e: Event)
    requires Inv(cfg, s) && Enabled(cfg, s, e)
    ensures Inv(cfg, Next(cfg, s, e))
  {
    hide Zoo.Holds, Zoo.ApplyBytes, Zoo.Finds, Own, Ledger;
    match e
    case Deliver(sig) => SameLedger(cfg, s, Next(cfg, s, e));
    case Attempt(choice, outcome) => LaunchKeeps(cfg, s, choice, outcome);
    case Settle(stopFile, dead) => SettleKeeps(cfg, s, stopFile, dead);
    case Reap(dead, wait) => ReapKeeps(cfg, s, dead, wait);
    case Drain(dead) => DrainKeeps(cfg, s, dead);
    case Leave => LeaveKeeps(cfg, s);
    case Foreign(op) => ForeignKeeps(cfg, s, op);
  }

  // ------------------------------------------------------------------ whole runs

  ghost predicate Runs(cfg: Config, s: Pan, events: seq<Event>)
    decreases |events|
  {
    events == [] ||
    (WellFormed(cfg) && Shape(cfg, s) && Enabled(cfg, s, events[0]) && Runs(cfg, Next(cfg, s, events[0]), events[1..]))
  }

  ghost function After(cfg: Config, s: Pan, events: seq<Event>): Pan
    requires Runs(cfg, s, events)
    decreases |events|
  {
    if events == [] then s else After(cfg, Next(cfg, s, events[0]), events[1..])
  }

  lemma {:induction false} RunInv(cfg: Config, s: Pan, events: seq<Event>)
    requires Inv(cfg, s) && Runs(cfg, s, events)
    ensures Inv(cfg, After(cfg, s, events))
    decreases |events|
  {
    hide Inv, Next, Enabled;
    if events != [] {
      StepInv(cfg, s, events[0]);
      RunInv(cfg, Next(cfg, s, events[0]), events[1..]);
    }
  }

  /** Between two events pan's own entry, and that of every running and every orphaned group, can be found. */
  lemma {:induction false} ClearsFind(cfg: Config, s: Pan, pid: int)
    requires Inv(cfg, s) && !s.phase.Over?
    requires pid == cfg.pid || (pid != 0 && (pid in Pgrps(s.running) || pid in s.orphans))
    ensures Zoo.Finds(s.zoo, pid)
  {
    hide Zoo.Holds, Zoo.Finds;
    TrackedPid(cfg, s, pid);
    Zoo.ApplyHolds(s.zoo, s.others + Own(cfg, s), Zoo.Clear(pid));
    assert pid in multiset(Pgrps(s.running)) <==> pid in Pgrps(s.running);
    assert pid in multiset(s.orphans) <==> pid in s.orphans;
  }

  /** And every zoo_clear that an event makes finds its entry: in a check for empty groups also after the clears before it
      in that check, and for a dead child after the whole check. So check_orphans reports nothing, and check_pids never
      leaves through exit(1). */
  lemma {:induction false} ClearsInEventsFind(cfg: Config, s: Pan, dead: set<int>, k: nat, pid: int)
    requires Inv(cfg, s) && !s.phase.Over?
    ensures k < |s.orphans| && s.orphans[k] != 0 && s.orphans[k] in dead ==>
      Zoo.Finds(Orphans.CheckZoo(s.orphans[..k], dead, s.zoo), s.orphans[k])
    ensures s.phase.Reaping? && pid > 0 && pid in Pgrps(s.running) ==> Zoo.Finds(CheckOrphans(s, dead, 0).zoo, pid)
  {
    hide Zoo.Holds, Zoo.Finds, Zoo.ApplyBytes;
    var rest := s.others + multiset{cfg.pid} + Orphans.Groups(Pgrps(s.running));
    assert s.others + Own(cfg, s) == rest + Orphans.Groups(s.orphans);
    if k < |s.orphans| && s.orphans[k] != 0 && s.orphans[k] in dead {
      Orphans.LaterClearFinds(s.orphans, k, dead, s.zoo, rest);
    }
    if s.phase.Reaping? && pid > 0 && pid in Pgrps(s.running) {
      CheckOrphansKeeps(cfg, s, dead, 0);
      CheckOrphansCore(cfg, s, dead);
      ClearsFind(cfg, CheckOrphans(s, dead, 0), pid);
    }
  }

  /** A tracked pid is a C int. */
  lemma {:induction false} TrackedPid(cfg: Config, s: Pan, pid: int)
    requires WellFormed(cfg) && Shape(cfg, s)
    requires pid == cfg.pid || pid in Pgrps(s.running) || pid in s.orphans
    ensures 0 <= pid < MAX_PID
  {
    if pid in Pgrps(s.running) {
      var k :| 0 <= k < |s.running| && Pgrps(s.running)[k] == pid;
      assert s.running[k].pgrp == pid;
    }
  }

  /** In every reachable state: num_active is the number of used slots, so the launching loop always finds a free
      slot; and the live entries of the zoo file are pan's own and the other programs' ones. */
  lemma {:induction false} ReachableStates(cfg: Config, starts: int, forkInRoad: bool, file: string,
                                            others: multiset<int>, events: seq<Event>)
    requires WellFormed(cfg) && Zoo.Holds(file, others)
    requires Runs(cfg, Init(cfg, starts, forkInRoad, file, others), events)
    ensures var s := After(cfg, Init(cfg, starts, forkInRoad, file, others), events);
      && !s.phase.Aborted?
      && s.numActive == Count(s.running, InUse)
      && (s.numActive < cfg.keepActive ==> FirstSlot(s.running, 0) < cfg.keepActive)
      && Zoo.Holds(s.zoo, s.others + Own(cfg, s))
      && (cfg.sequential ==> forall k :: 0 <= k < |s.attempts| ==> s.attempts[k] == k % |cfg.coll|)
      && (s.phase.Over? ==> Zoo.Holds(s.zoo, s.others))
      && s.missed == 0
  {
    hide Zoo.Holds, Init, Runs, After;
    var s := After(cfg, Init(cfg, starts, forkInRoad, file, others), events);
    InitInv(cfg, starts, forkInRoad, file, others);
    RunInv(cfg, Init(cfg, starts, forkInRoad, file, others), events);
    if s.numActive < cfg.keepActive { FreeSlotExists(cfg, s); }
    if s.phase.Over? { NothingLeft(cfg, s); }
  }

  lemma {:induction false} NothingLeft(cfg: Config, s: Pan)
    requires Inv(cfg, s) && s.phase.Over?
    ensures s.others + Own(cfg, s) == s.others
  {
    hide Zoo.Holds;
    CountZero(s.running, InUse);
    NoGroups(Pgrps(s.running));
    NoGroups(s.orphans);
  }

  // ----------------------------------------------------------- stop is forever

  lemma {:induction false} SettleMonotone(s: Pan, stopFile: bool, dead: set<int>)
    ensures var t := SettleSignal(StopCheck(s, stopFile), dead); t.stop >= s.stop && t.attempts == s.attempts
  {
  }

  lemma {:induction false} ReapMonotone(cfg: Config, s: Pan, dead: set<int>, wait: Wait)
    requires WellFormed(cfg) && Shape(cfg, s) && Enabled(cfg, s, Reap(dead, wait))
    ensures var t := Next(cfg, s, Reap(dead, wait)); t.stop == s.stop && t.attempts == s.attempts
  {
    hide Zoo.ApplyBytes, Zoo.Finds, WaitHandler, Orphans.MarkSlot, Orphans.CheckSlots, Orphans.CheckZoo, AfterCheck;
    var r := CheckPids(cfg, CheckOrphans(s, dead, 0), wait);
    AfterCheckMonotone(cfg, r.0, r.1);
  }

  lemma {:induction false} AfterCheckMonotone(cfg: Config, s: Pan, err: int)
    ensures AfterCheck(cfg, s, err).stop == s.stop && AfterCheck(cfg, s, err).attempts == s.attempts
  {
  }

  lemma {:induction false} StopStays(cfg: Config, s: Pan, e: Event)
    requires WellFormed(cfg) && Shape(cfg, s) && Enabled(cfg, s, e) && s.stop > 0
    ensures Next(cfg, s, e).stop > 0 && Next(cfg, s, e).attempts == s.attempts
  {
    hide Zoo.ApplyBytes, Zoo.Finds, SettleSignal, AfterCheck, CheckPids, WaitHandler;
    match e
    case Settle(stopFile, dead) => SettleMonotone(s, stopFile, dead);
    case Reap(dead, wait) => ReapMonotone(cfg, s, dead, wait);
    case _ =>
  }

  /** Once stop is nonzero no child is ever launched again. */
  lemma {:induction false} NoLaunchAfterStop(cfg: Config, s: Pan, events: seq<Event>)
    requires Runs(cfg, s, events) && s.stop > 0
    ensures After(cfg, s, events).attempts == s.attempts
    decreases |events|
  {
    hide Next, Enabled;
    if events != [] {
      StopStays(cfg, s, events[0]);
      NoLaunchAfterStop(cfg, Next(cfg, s, events[0]), events[1..]);
    }
  }
}
