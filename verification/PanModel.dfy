/** The scheduler of ltp-pan.c as a transition system.

    `Next` says what each stretch of `main` between two questions to the environment does to pan's variables, its
    orphan list and the bytes of the zoo file. The answers of the environment (did the child start, which child
    died, is its group still populated, which signal arrived) are the events. */
module PanModel {
  import opened Counting
  import opened Signals
  import Orphans
  import Zoo

  const MAX_PID: int := 0x8000_0000

  datatype Command = Command(name: string, cmdline: string)

  /** What the command line and the command file fix for the whole run. */
  datatype Config = Config(keepActive: nat, coll: seq<Command>, sequential: bool, hasBrakes: bool,
                           pid: int, panname: string, args: string)

  /** An element of running[]; pgrp 0 marks a free slot. */
  datatype Slot = Slot(pgrp: int, stopping: bool, cmd: nat)

  /** Where control is: in the launching loop, before check_pids, in the orphan loop, past the end, or exit(1). */
  datatype Phase = Scheduling | Reaping | Draining | Over | Aborted

  datatype Pan = Pan(
    phase: Phase,
    running: seq<Slot>,
    numActive: int,
    starts: int,
    stop: nat,
    goIdle: nat,
    forkInRoad: bool,
    ratchet: Ratchet,
    orphans: seq<int>,
    c: nat,
    attempts: seq<nat>,     // the command index of every launch attempt so far
    zoo: string,            // the bytes of the zoo file
    kills: seq<Orphans.Kill>,   // every signal sent so far, signal 0 included
    missed: nat,                // how many calls of zoo_clear found no entry, but for the one that ends the program
    others: multiset<int>)      // the live entries that other programs have in the zoo file

  datatype Outcome = Failed | Started(pid: int)

  datatype Status = Exited(code: int) | Signaled(sig: int)

  /** What wait() and the kill(-cpid, 0) after it answer; NoChild stands for EINTR and ECHILD. */
  datatype Wait = NoChild | Child(pid: int, status: Status, survives: bool)

  datatype Event =
    | Deliver(sig: int)                         // the signal handler runs
    | Attempt(choice: nat, outcome: Outcome)    // one turn of the launching loop
    | Settle(stopFile: bool, dead: set<int>)    // from the launching loop to check_pids
    | Reap(dead: set<int>, wait: Wait)          // check_pids and the rest of the main loop
    | Drain(dead: set<int>)                     // one pass of the orphan loop
    | Leave                                     // the end of the orphan loop and the last zoo_clear
    | Foreign(op: Zoo.Op)                       // another program marks or clears an entry of its own

  predicate WellFormed(cfg: Config) {
    && |cfg.coll| >= 1
    && 0 < cfg.pid < MAX_PID && cfg.keepActive < MAX_PID
    && '\n' !in cfg.panname && '\n' !in cfg.args
    && forall i :: 0 <= i < |cfg.coll| ==> '\n' !in cfg.coll[i].name && '\n' !in cfg.coll[i].cmdline
  }

  predicate InUse(s: Slot) { s.pgrp != 0 }

  function Pgrps(running: seq<Slot>): (r: seq<int>)
    ensures |r| == |running|
    ensures forall i :: 0 <= i < |running| ==> r[i] == running[i].pgrp
  {
    seq(|running|, i requires 0 <= i < |running| => running[i].pgrp)
  }

  /** The first slot of that pgrp; the number of slots if there is none. */
  function FirstSlot(running: seq<Slot>, pgrp: int): (i: nat)
    ensures i <= |running| && (i < |running| ==> running[i].pgrp == pgrp)
    ensures forall k :: 0 <= k < i ==> running[k].pgrp != pgrp
  {
    if running == [] || running[0].pgrp == pgrp then 0 else 1 + FirstSlot(running[1..], pgrp)
  }

  /** The number of starts the options ask for; -1 is "without end". */
  function InitialStarts(timed: bool, starts: int, cfg: Config): int {
    if timed && starts == -1 then -1
    else if starts == -1 then (if cfg.sequential then |cfg.coll| else 1)
    else if starts == 0 then -1
    else if starts < cfg.keepActive then cfg.keepActive
    else starts
  }

  // --------------------------------------------------------------- start of main

  /** zoo_mark_cmdline(zoofile, c, panname, "") for c = 0 .. n - 1. */
  function MarkSpaces(cfg: Config, n: nat, file: string): string {
    if n == 0 then file else Zoo.ApplyBytes(MarkSpaces(cfg, n - 1, file), Zoo.Mark(n - 1, cfg.panname, ""))
  }

  /** zoo_clear(zoofile, c) for c = 0 .. n - 1. */
  function ClearSpaces(n: nat, file: string): string {
    if n == 0 then file else Zoo.ApplyBytes(ClearSpaces(n - 1, file), Zoo.Clear(n - 1))
  }

  /** How many of these find nothing; main gives up at the first that does. */
  function SpacesMissed(n: nat, file: string): nat {
    if n == 0 then 0 else SpacesMissed(n - 1, file) + if Zoo.Finds(ClearSpaces(n - 1, file), n - 1) then 0 else 1
  }

  function Init(cfg: Config, starts: int, forkInRoad: bool, file: string, others: multiset<int>): Pan {
    var marked := Zoo.ApplyBytes(file, Zoo.Mark(cfg.pid, cfg.panname, cfg.args));
    var spaced := MarkSpaces(cfg, cfg.keepActive, marked);
    Pan(Scheduling, seq(cfg.keepActive, _ => Slot(0, false, 0)), 0, starts, 0, 0, forkInRoad, Ratchet(0, 0, 0), [0], 0, [],
        ClearSpaces(cfg.keepActive, spaced), [], SpacesMissed(cfg.keepActive, spaced), others)
  }

  /** What the tables and lists look like between two events. */
  predicate Shape(cfg: Config, s: Pan) {
    && |s.running| == cfg.keepActive && |s.orphans| >= 1 && s.c < |cfg.coll|
    && (forall i :: 0 <= i < |s.running| ==> 0 <= s.running[i].pgrp < MAX_PID && s.running[i].cmd < |cfg.coll|)
    && (forall i :: 0 <= i < |s.orphans| ==> 0 <= s.orphans[i] < MAX_PID)
  }

  // ------------------------------------------------------------------ one event

  /** The condition of the launching loop, with the break at its top. */
  predicate CanLaunch(cfg: Config, s: Pan) {
    s.numActive < cfg.keepActive && s.starts != 0 && s.stop == 0 && s.ratchet.received == 0 && s.goIdle == 0
  }

  predicate HasOrphans(s: Pan) {
    exists i :: 0 <= i < |s.orphans| && s.orphans[i] != 0
  }

  /** The event fits the place where control is, and the answer is one the environment can give: a pid is positive,
      wait() returns only children that run_child registered, and other programs clear only what they marked. */
  predicate Enabled(cfg: Config, s: Pan, e: Event) {
    match e
    case Deliver(sig) => sig in Caught && s.phase in {Scheduling, Reaping, Draining}
    case Attempt(_, outcome) => s.phase == Scheduling && CanLaunch(cfg, s) && (outcome.Started? ==> 0 < outcome.pid < MAX_PID)
    case Settle(_, _) => s.phase == Scheduling && !CanLaunch(cfg, s)
    case Reap(_, wait) => s.phase == Reaping && (wait.Child? ==> 0 < wait.pid && wait.pid in Pgrps(s.running))
    case Drain(_) => s.phase == Draining && HasOrphans(s)
    case Leave => s.phase == Draining && !HasOrphans(s)
    case Foreign(op) => Zoo.OkOp(op) && (op.Clear? ==> op.pid in s.others)
  }

  function Next(cfg: Config, s: Pan, e: Event): Pan
    requires WellFormed(cfg) && Shape(cfg, s)
  {
    match e
    case Deliver(sig) => s.(ratchet := WaitHandler(s.ratchet, sig))
    case Attempt(choice, outcome) => Launch(cfg, s, if cfg.sequential then s.c else choice % |cfg.coll|, outcome)
    case Settle(stopFile, dead) => SettleSignal(StopCheck(s, stopFile), dead).(phase := Reaping)
    case Reap(dead, wait) =>
      var r := CheckPids(cfg, CheckOrphans(s, dead, 0), wait);
      if r.0.phase == Aborted then r.0 else AfterCheck(cfg, r.0, r.1)
    case Drain(dead) => Propagate(if s.ratchet.received == 0 then s.(ratchet := WaitHandler(s.ratchet, SIGINT)) else s, dead)
    case Leave =>
      s.(zoo := Zoo.ApplyBytes(s.zoo, Zoo.Clear(cfg.pid)), phase := Over,
         missed := s.missed + if Zoo.Finds(s.zoo, cfg.pid) then 0 else 1)
    case Foreign(op) => s.(zoo := Zoo.ApplyBytes(s.zoo, op), others := Zoo.ApplyLive(s.others, op))
  }

  /** One turn of the launching loop, with command c. */
  function Launch(cfg: Config, s: Pan, c: nat, outcome: Outcome): Pan
    requires c < |cfg.coll| && |s.running| == cfg.keepActive
  {
    var i := FirstSlot(s.running, 0);
    if i == cfg.keepActive then s.(c := c, ratchet := WaitHandler(s.ratchet, SIGINT))
    else
      var t := s.(c := if cfg.sequential then (if c + 1 >= |cfg.coll| then 0 else c + 1) else c,
                  starts := if (outcome.Started? || cfg.sequential) && s.starts > 0 then s.starts - 1 else s.starts,
                  attempts := s.attempts + [c]);
      match outcome
      case Failed => t
      case Started(pid) =>
        t.(running := s.running[i := Slot(pid, false, c)], numActive := s.numActive + 1,
           zoo := Zoo.ApplyBytes(s.zoo, Zoo.Mark(pid, cfg.coll[c].name, cfg.coll[c].cmdline)))
  }

  /** `if (starts == 0) ++stop; else if (starts == -1) ...` */
  function StopCheck(s: Pan, stopFile: bool): Pan {
    if s.starts == 0 || (s.starts == -1 && stopFile) then s.(stop := s.stop + 1) else s
  }

  function StopOrIdle(s: Pan): Pan {
    if s.forkInRoad then s.(goIdle := s.goIdle + 1) else s.(stop := s.stop + 1)
  }

  /** `if (rec_signal) { ... }` of the main loop. */
  function SettleSignal(s: Pan, dead: set<int>): Pan {
    if s.ratchet.received == 0 then s
    else if s.ratchet.received == SIGUSR2 then StopOrIdle(s).(ratchet := Propagated(s.ratchet))
    else
      var t := if s.ratchet.received == SIGUSR1 then s.(forkInRoad := false) else s;
      StopOrIdle(Propagate(t, dead))
  }

  /** check_orphans with signal sig; 0 only asks which groups are empty. */
  function CheckOrphans(s: Pan, dead: set<int>, sig: int): Pan {
    s.(orphans := Orphans.CheckSlots(s.orphans, dead), zoo := Orphans.CheckZoo(s.orphans, dead, s.zoo),
       kills := s.kills + Orphans.Kills(s.orphans, sig), missed := s.missed + Orphans.Misses(s.orphans, dead, s.zoo))
  }

  function Stopped(s: Slot): Slot {
    if s.pgrp == 0 then s else s.(stopping := true)
  }

  function StopSlots(running: seq<Slot>): (r: seq<Slot>)
    ensures |r| == |running| && forall i :: 0 <= i < |r| ==> r[i] == Stopped(running[i])
  {
    seq(|running|, i requires 0 <= i < |running| => Stopped(running[i]))
  }

  /** The signal to send goes to every running group and then to every orphaned one. */
  function Propagate(s: Pan, dead: set<int>): Pan {
    var sig := s.ratchet.sending;
    CheckOrphans(s.(kills := s.kills + Orphans.Kills(Pgrps(s.running), sig)), dead, sig)
      .(running := StopSlots(s.running), ratchet := Propagated(s.ratchet))
  }

  /** The error count check_pids returns for a dead child. */
  function Verdict(status: Status, stopping: bool): int {
    match status
    case Signaled(_) => if stopping then 0 else 1
    case Exited(code) => if code == 0 || (code == 130 && stopping) then 0 else 1
  }

  /** check_pids after its check_orphans. */
  function CheckPids(cfg: Config, s: Pan, wait: Wait): (r: (Pan, int))
    requires |s.orphans| >= 1 && forall i :: 0 <= i < |s.running| ==> s.running[i].cmd < |cfg.coll|
  {
    if wait.NoChild? then (s, 0)
    else
      var t := s.(numActive := s.numActive - 1);
      var i := FirstSlot(s.running, wait.pid);
      if i == |s.running| then (t, if wait.status.Exited? && wait.status.code != 0 then 1 else 0)
      else
        var slot := s.running[i];
        var u := t.(running := s.running[i := slot.(pgrp := 0)], zoo := Zoo.ApplyBytes(s.zoo, Zoo.Clear(wait.pid)));
        if !Zoo.Finds(s.zoo, wait.pid) then (u.(phase := Aborted), 0)
        else if wait.survives then
          (u.(kills := s.kills + [Orphans.Kill(wait.pid, 0), Orphans.Kill(wait.pid, SIGTERM)],
              zoo := Zoo.ApplyBytes(u.zoo, Zoo.Mark(wait.pid, "panorphan", cfg.coll[slot.cmd].cmdline)),
              orphans := Orphans.MarkSlot(s.orphans, wait.pid)), Verdict(wait.status, slot.stopping))
        else (u.(kills := s.kills + [Orphans.Kill(wait.pid, 0)]), Verdict(wait.status, slot.stopping))
  }

  /** `if (check_pids(...)) { ... }` of the main loop. */
  function Blame(cfg: Config, s: Pan, err: int): Pan {
    var t := if err != 0 && s.forkInRoad then s.(goIdle := s.goIdle + 1) else s;
    if err != 0 && cfg.hasBrakes then t.(ratchet := WaitHandler(t.ratchet, SIGINT)) else t
  }

  /** The main loop after check_pids returned err. */
  function AfterCheck(cfg: Config, s: Pan, err: int): Pan {
    var u := Blame(cfg, s, err);
    if u.stop != 0 && u.numActive == 0 then u.(phase := Draining)
    else if u.goIdle != 0 && u.numActive == 0 then u.(phase := Scheduling, goIdle := 0, ratchet := WaitHandler(u.ratchet, 0))
    else u.(phase := Scheduling)
  }
}
